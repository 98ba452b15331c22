/** The database object: memtables, tables on disk and a block cache, refining the model of its steps. */
module DBs {
  import opened Bytes
  import opened Core
  import opened Compactions
  import opened DBAnswers
  import opened DBCompact
  import opened DBModel
  import opened DBOpens
  import opened DBQueries
  import opened DBRuns
  import opened DBTables
  import opened Paths
  import opened TableFormat
  import opened Wrappers
  import C = Caches
  import E = Events
  import F = Bloom
  import IO = TableIO
  import L = Wal
  import N = DBNames
  import R = CompactionRuns
  import Rec = Recoveries
  import S = SSTables
  import W = WalRuns

  class DB {
    const disk: R.Disk
    const cache: C.BlockCache
    const wal: L.Writer
    const blockTarget: nat
    const sstTarget: nat
    const hashes: u32
    const bits: u32
    var symbols: map<string, u32>
    var nextId: u32
    var nextSeq: u64
    var sstSeq: u64
    /** Memtables appear as the sorted runs that their skip lists hold. */
    var active: seq<Event>
    var imms: seq<seq<Event>>
    var levels: seq<seq<R.SSTableInfo>>
    ghost var stored: map<string, Stored>
    /** Above every sequence that a flush has ever named a file after. */
    ghost var spent: u64
    ghost var ledger: W.Ledger

    /** Every listed table is on disk, holds what `stored` says, and has a name of its own. */
    ghost predicate Tables()
      reads `levels, `stored, `spent, disk
    {
      LevelsFine(disk.files, levels, stored, spent)
    }

    ghost predicate Cached()
      reads `stored, cache
    {
      AllFit(stored) && cache.Valid() && IO.Coherent(cache.lru, StoreOf(stored))
    }

    /** Runs are sorted, and only the active one can be empty. */
    ghost predicate Memory()
      reads `active, `imms
    {
      E.Sorted(active) && forall i :: 0 <= i < |imms| ==> E.Sorted(imms[i]) && imms[i] != []
    }

    /** The log segments hold the ledger's events. */
    ghost predicate Journal()
      reads `ledger, wal, wal.disk
    {
      wal.Valid() && W.Matches(W.Up(wal.State()), ledger)
    }

    /** The events in the log, in order. */
    ghost function Journaled(): seq<Event>
      reads `ledger
    {
      Join(ledger.segments)
    }

    /** What queries and writes need. */
    ghost predicate Usable()
      reads this, disk, cache, wal, wal.disk
    {
      && blockTarget < TWO_32 && R.PerFile(sstTarget) < TWO_32 && bits <= TWO_32 - 8
      && Tables() && Cached() && Memory() && Journal()
    }

    /** What flushes and compactions need besides: the next table sequence is unused, as long as nothing is reopened. */
    ghost predicate Valid()
      reads this, disk, cache, wal, wal.disk
    {
      Usable() && spent == sstSeq
    }

    ghost function Model(): State
      requires Tables()
      reads this, disk
    {
      State(symbols, nextId, nextSeq, sstSeq, active, imms, ViewOf(levels[0], stored), ViewOf(levels[1], stored),
        Journaled())
    }

    /** A new database in an empty directory. */
    constructor (cacheBytes: nat, blockBytes: nat, tableBytes: nat, segmentBytes: nat, k: u32, m: u32)
      requires blockBytes < TWO_32 && R.PerFile(tableBytes) < TWO_32 && m <= TWO_32 - 8
      ensures Valid() && Model() == FRESH && fresh(disk) && fresh(cache) && fresh(wal) && fresh(wal.disk)
      ensures blockTarget == blockBytes && sstTarget == tableBytes
    {
      disk := new R.Disk();
      cache := new C.BlockCache(cacheBytes);
      var dir := new L.Directory();
      wal := new L.Writer(dir, segmentBytes);
      ledger := W.Ledger([[]], 0, true);
      blockTarget, sstTarget, hashes, bits := blockBytes, tableBytes, k, m;
      symbols, nextId, nextSeq, sstSeq, spent := map[], 1, 1, 1, 1;
      active, imms, levels, stored := [], [], [[], [], [], []], map[];
      new;
      hide *;
      FreshJournal(segmentBytes);
      FreshParts();
      StaysUsable();
      IsValid();
    }

    /** The files of a closed or crashed database: the tables found in the level directories, the log replayed into a
        new memtable and opened behind its last whole record, and the table counter at its start. */
    constructor Open(d: R.Disk, dir: L.Directory, names: map<string, u32>, next: u32, cacheBytes: nat, blockBytes: nat,
        tableBytes: nat, segmentBytes: nat, k: u32, m: u32, ghost s: State, ghost l0: seq<R.SSTableInfo>,
        ghost l1: seq<R.SSTableInfo>, ghost was: map<string, Stored>, ghost used: u64, ghost h: W.Ledger)
      requires blockBytes < TWO_32 && R.PerFile(tableBytes) < TWO_32 && m <= TWO_32 - 8
      requires Left(d.files, s, l0, l1, was, used) && names == s.symbols && next == s.nextId
      requires W.Matches(W.Down(dir.files), h)
      modifies dir
      ensures Usable() && (l0 == [] ==> Valid()) && disk == d && wal.disk == dir && fresh(cache) && fresh(wal)
      ensures var kept := Rec.EventsOf(W.Replay(old(dir.files)).records);
              exists d0, d1 :: Found(s, d0, d1) && Model() == Reopened(s, kept, d0, d1)
      ensures forall i :: 0 <= i < |levels| ==> InOrder(levels[i])
      ensures blockTarget == blockBytes && sstTarget == tableBytes
    {
      hide *;
      ReplayedIsLedger(dir.files, h);
      disk := d;
      cache := new C.BlockCache(cacheBytes);
      var loaded;
      ghost var d0, d1;
      loaded, d0, d1 := LoadLevels(d, s, l0, l1, was, used);
      var r := Rec.ReadLog(dir);
      var run := ReplayInto(r.records);
      var after := Rec.AfterLast(r.records);
      var writer := Rec.OpenWriter(dir, segmentBytes, r);
      symbols, nextId, nextSeq, sstSeq := names, next, after, 1;
      active, imms, levels, wal := run, [], loaded, writer;
      stored, spent := Only(was, l0, l1), Bound(l0, used);
      ledger := W.LedgerStep(h, W.Reopen, segmentBytes);
      blockTarget, sstTarget, hashes, bits := blockBytes, tableBytes, k, m;
      new;
      NewlyCached();
      AreTables();
      OpenedMemory();
      OpenedJournal(old(dir.files), h, segmentBytes);
      ViewsAre();
      OpenedModel(s, r.records, d0, d1);
      StaysUsable();
      if l0 == [] {
        BoundOfNone(used);
        IsValid();
      }
    }

    lemma {:induction false} BoundOfNone(used: u64)
      ensures Bound([], used) == 1
    {
    }

    lemma {:induction false} NewlyCached()
      requires LevelsFine(disk.files, levels, stored, spent) && cache.Valid() && cache.lru == []
      ensures Cached()
    {
      hide LevelFine;
      hide NamesFine;
      hide Tidy;
    }

    lemma {:induction false} OpenedMemory()
      requires E.Sorted(active) && imms == []
      ensures Memory()
    {
    }

    lemma {:induction false} OpenedJournal(files: L.Dir, h: W.Ledger, maxBytes: nat)
      requires wal.Valid() && wal.State() == W.Recovered(files) && W.Matches(W.Down(files), h)
      requires h.segments != [] && ledger == W.LedgerStep(h, W.Reopen, maxBytes)
      ensures Journal()
      ensures Journaled() == Rec.EventsOf(W.Replay(files).records)
    {
      W.ReopenMatches(files, h, maxBytes);
      ReplayedIsLedger(files, h);
      ReopeningJoins(h, maxBytes);
      hide W.Matches;
      hide W.Replay;
      hide W.LedgerStep;
    }

    lemma {:induction false} OpenedModel(s: State, records: seq<L.WalRecord>, d0: seq<Input>, d1: seq<Input>)
      requires Tables() && Level0() == SortBySeq(d0) && Level1() == SortBySeq(d1) && symbols == s.symbols
               && nextId == s.nextId
      requires nextSeq == Rec.NextSeq(records) && sstSeq == 1 && active == Overlay([], Rec.EventsOf(records))
               && imms == []
      requires Journaled() == Rec.EventsOf(records)
      ensures Model() == Reopened(s, Rec.EventsOf(records), d0, d1)
    {
      ModelIs();
      hide LevelsFine;
      hide Journaled;
      hide Overlay;
      hide SortBySeq;
    }

    lemma {:induction false} FreshParts()
      requires symbols == map[] && nextId == nextSeq == sstSeq == 1 && active == [] && imms == []
               && levels == [[], [], [], []]
      requires disk.files == map[] && stored == map[] && ledger == W.Ledger([[]], 0, true) && cache.Valid()
               && cache.lru == []
      ensures Tables() && Cached() && Memory() && Model() == FRESH
    {
      BagOfOne([]);
      assert ViewOf([], stored) == [];
    }

    lemma {:induction false} FreshJournal(segmentBytes: nat)
      requires wal.Valid() && ledger == W.Ledger([[]], 0, true)
      requires exists m: nat :: L.IsMaxId(map[], m) && wal.State() == L.OpenSegment(map[], if m > 0 then m else 1)
      ensures Journal()
    {
      W.RunMatches([], segmentBytes);
      hide W.Matches;
    }

    // ---- queries ----

    lemma {:induction false} ReaderUsable(reader: IO.SSTableReader, path: string)
      requires Cached() && path in stored && reader.path == path && reader.cache == cache
      requires reader.Value() == TableOf(stored[path].r, stored[path].es)
      ensures reader.Usable(StoreOf(stored))
    {
      StoredRegular(stored[path].r, stored[path].es);
      hide IO.Regular;
      hide TableOf;
      hide IO.Coherent;
      hide Fits;
    }

    lemma {:induction false} StillCached(reader: IO.SSTableReader)
      requires AllFit(stored) && reader.cache == cache && reader.Usable(StoreOf(stored))
      ensures Cached()
    {
      hide IO.Coherent;
      hide StoreOf;
    }

    /** A reader of the file, loaded and sharing the cache. */
    method OpenReader(path: string, contents: seq<byte>, ghost t: Stored) returns (reader: IO.SSTableReader)
      requires Cached() && path in stored && stored[path] == t && S.IsFile(contents, t.r, t.es)
      ensures fresh(reader) && fresh(reader.index) && fresh(reader.filter) && reader.cache == cache
      ensures AllFit(stored) && F.WellFormed(t.r.filter) && OpenTable(contents) == Ok(reader.Value())
      ensures reader.Usable(StoreOf(stored))
    {
      assert AllFit(stored);
      hide *;
      reader := new IO.SSTableReader(path, contents, cache);
      ghost var self: object, c: object := this, cache;
      assert self != reader && self != reader.index && self != reader.filter;
      assert c != reader && c != reader.index && c != reader.filter;
      S.FileOpens(contents, t.r, t.es);
      var ok := reader.LoadFooterAndIndex();
      assert ok;
      ReaderUsable(reader, path);
    }

    /** Opens the file through the cache and offers the collector what lies in range. */
    method ScanFile(path: string, contents: seq<byte>, lo: Key, hi: Key, st: Rows, req: Request, ghost t: Stored)
        returns (next: Rows)
      requires Cached() && lo != hi && path in stored && stored[path] == t && S.IsFile(contents, t.r, t.es)
      modifies cache
      ensures Cached()
      ensures next == E.Feed(E.InRange(t.es, lo, hi), st, CollectRow(req)).state
    {
      hide *;
      var reader := OpenReader(path, contents, t);
      var scan := reader.ScanRange(lo, hi, st, CollectRow(req), StoreOf(stored));
      StillCached(reader);
      S.FileScan(contents, t.r, t.es, reader.Value(), lo, hi, st, CollectRow(req), scan);
      next := scan.turn.state;
    }

    /** A table is skipped by its key bounds or scanned; either way the collector is offered what it holds in range. */
    method ConsiderTable(info: R.SSTableInfo, lo: Key, hi: Key, st: Rows, req: Request, ghost t: Stored)
        returns (next: Rows)
      requires Cached() && lo != hi && info.path in stored && stored[info.path] == t
      requires R.Holding(disk.files, info, t.r, t.es)
      modifies cache
      ensures Cached()
      ensures next == E.Feed(E.InRange(t.es, lo, hi), st, CollectRow(req)).state
    {
      hide *;
      HeldParts(disk.files, info, t);
      if Less(hi, info.meta.minKey) || Less(info.meta.maxKey, lo) {
        SkipSafe(t.r, t.es, lo, hi);
        NothingOffered(st, req);
        next := st;
      } else {
        next := ScanFile(info.path, disk.files[info.path], lo, hi, st, req, t);
      }
    }

    /** The tables in the order of the levels, until the limit is reached. */
    method ScanTables(files: seq<R.SSTableInfo>, lo: Key, hi: Key, st0: Rows, sym: u32, req: Request,
                      ghost sources: seq<seq<Event>>, ghost from: nat) returns (st: Rows)
      requires Cached() && lo == Lo(sym, req) && hi == Hi(sym, req)
      requires from + |files| == |sources| && LevelFine(disk.files, files, stored)
      requires forall j :: 0 <= j < |files| ==> files[j].path in stored && stored[files[j].path].es == sources[from + j]
      requires st0 == SoFar(Picked(sources, from, sym, req), req)
      modifies cache
      ensures Cached()
      ensures st == SoFar(Picked(sources, |sources|, sym, req), req)
    {
      hide *;
      st := st0;
      RangeNotPoint(sym, req);
      for j := 0 to |files|
        invariant Cached()
        invariant st == SoFar(Picked(sources, from + j, sym, req), req)
      {
        if st.done {
          DoneStays(sources, from + j, sym, req);
          return;
        }
        FineAt(disk.files, files, stored, j);
        PickNext(sources, from + j, sym, req);
        st := ConsiderTable(files[j], lo, hi, st, req, stored[files[j].path]);
      }
    }

    /** Immutable memtables, oldest first, until the limit is reached. */
    method ScanMemtables(lo: Key, hi: Key, st0: Rows, sym: u32, req: Request, ghost sources: seq<seq<Event>>)
        returns (st: Rows)
      requires lo == Lo(sym, req) && hi == Hi(sym, req) && [active] + imms <= sources
      requires st0 == SoFar(Picked(sources, 1, sym, req), req)
      ensures st == SoFar(Picked(sources, 1 + |imms|, sym, req), req)
    {
      hide *;
      st := st0;
      for j := 0 to |imms|
        invariant st == SoFar(Picked(sources, 1 + j, sym, req), req)
      {
        assert sources[1 + j] == ([active] + imms)[1 + j];
        PickNext(sources, 1 + j, sym, req);
        if !st.done {
          st := E.Feed(E.InRange(imms[j], lo, hi), st, CollectRow(req)).state;
        }
      }
    }

    /** Rows are collected source by source. They are the first of the events asked for in the active memtable, the
        immutable ones, level 0 and level 1. */
    method Query(req: Request) returns (rows: seq<Event>)
      requires Usable()
      modifies cache
      ensures Usable() && rows == Answer(Model(), req)
      ensures req.symbol !in symbols ==> rows == []
      ensures req.symbol in symbols ==>
                var es := active + Join(imms) + Join(Runs(Model().l0)) + Join(Runs(Model().l1));
                FirstAsked(rows, es, symbols[req.symbol], req)
    {
      hide *;
      UsableParts();
      ModelParts();
      if req.symbol !in symbols {
        UnknownSymbol(Model(), req);
        return [];
      }
      var sym := symbols[req.symbol];
      ghost var sources := Sources(Model());
      SourceParts();
      var lo, hi, st := Lo(sym, req), Hi(sym, req), Rows([], false);
      NonePicked(sources, sym, req);
      PickNext(sources, 0, sym, req);
      st := E.Feed(E.InRange(active, lo, hi), st, CollectRow(req)).state;
      st := ScanMemtables(lo, hi, st, sym, req, sources);
      st := ScanTables(levels[0] + levels[1] + levels[2] + levels[3], lo, hi, st, sym, req, sources, 1 + |imms|);
      rows := st.rows;
      AnswerIsPicked(Model(), sources, sym, req);
      AnswerIsFirst(Model(), req);
      StaysUsable();
    }

    lemma {:induction false} ValidParts()
      requires Valid()
      ensures Usable() && spent == sstSeq
    {
      hide Usable;
    }

    lemma {:induction false} IsValid()
      requires Usable() && spent == sstSeq
      ensures Valid()
    {
      hide Usable;
    }

    lemma {:induction false} UsableParts()
      requires Usable()
      ensures blockTarget < TWO_32 && R.PerFile(sstTarget) < TWO_32 && bits <= TWO_32 - 8
      ensures Tables() && Cached() && Memory() && Journal()
    {
      hide Tables;
      hide Cached;
      hide Memory;
      hide Journal;
    }

    lemma {:induction false} StaysUsable()
      requires Tables() && Cached() && Memory() && Journal()
      requires blockTarget < TWO_32 && R.PerFile(sstTarget) < TWO_32 && bits <= TWO_32 - 8
      ensures Usable()
    {
      hide Tables;
      hide Cached;
      hide Memory;
      hide Journal;
    }

    lemma {:induction false} ModelParts()
      requires Tables()
      ensures |levels| == 4 && levels[2] == [] && levels[3] == []
      ensures LevelFine(disk.files, levels[0], stored)
      ensures LevelFine(disk.files, levels[1], stored)
      ensures forall i :: 0 <= i < |levels[0]| ==> levels[0][i].path in stored
      ensures forall i :: 0 <= i < |levels[1]| ==> levels[1][i].path in stored
      ensures Model().symbols == symbols && Model().active == active && Model().imms == imms
      ensures Model().l0 == ViewOf(levels[0], stored) && Model().l1 == ViewOf(levels[1], stored)
    {
      LevelsParts(disk.files, levels, stored, spent);
      hide LevelsFine;
      hide LevelFine;
    }

    /** The files in level order are the sources behind the memtables. */
    lemma {:induction false} SourceParts()
      requires Tables()
      ensures var sources, files := Sources(Model()), levels[0] + levels[1] + levels[2] + levels[3];
              && [active] + imms <= sources && |sources| == 1 + |imms| + |files| && sources[0] == active
              && LevelFine(disk.files, files, stored)
              && forall j :: 0 <= j < |files| ==>
                   files[j].path in stored && stored[files[j].path].es == sources[1 + |imms| + j]
    {
      hide *;
      ModelParts();
      var a, b, m := levels[0], levels[1], Model();
      assert a + b + levels[2] + levels[3] == a + b;
      BothFine(disk.files, a, b, stored);
      SourcesBehind(m, a, b, stored);
    }

    // ---- writes ----

    /** `symbols_->intern`. */
    method Intern(name: string) returns (id: u32)
      modifies `symbols, `nextId
      ensures id == if name in old(symbols) then old(symbols)[name] else old(nextId)
      ensures symbols == if name in old(symbols) then old(symbols) else old(symbols)[name := id]
      ensures nextId == if name in old(symbols) then old(nextId) else (old(nextId) + 1) % TWO_32
    {
      if name in symbols {
        return symbols[name];
      }
      id := nextId;
      nextId := (nextId + 1) % TWO_32;
      symbols := symbols[name := id];
    }

    /** The memtable insert, and the rotation when it filled up. */
    method InsertActive(e: Event, rotate: bool)
      requires Memory()
      modifies `active, `imms
      ensures Memory()
      ensures active == if rotate then [] else E.Upsert(old(active), e)
      ensures imms == if rotate then old(imms) + [E.Upsert(old(active), e)] else old(imms)
    {
      E.UpsertSorted(active, e);
      hide E.Upsert;
      active := E.Upsert(active, e);
      if rotate {
        imms := imms + [active];
        active := [];
      }
    }

    /** The record reaches the log, behind everything logged before. */
    method LogEvent(e: Event) returns (offset: nat)
      requires Journal()
      modifies `ledger, wal, wal.disk
      ensures Journal() && Journaled() == old(Journaled()) + [e]
      ensures LoggedAt(old(wal.segmentId), offset, e) && offset == old(wal.currentOffset)
    {
      hide L.Record;
      hide W.LedgerStep;
      hide W.Matches;
      hide L.AppendRecord;
      W.AppendMatches(wal.State(), ledger, e, wal.maxSegmentBytes);
      AppendJoins(ledger, e, wal.maxSegmentBytes);
      var segment;
      offset, segment := wal.Append(e);
      ledger := W.LedgerStep(ledger, W.Append(e), wal.maxSegmentBytes);
    }

    /** The segment ends with the event's record, which begins at the offset. */
    ghost predicate LoggedAt(segment: nat, offset: nat, e: Event)
      reads wal, wal.disk
    {
      segment in wal.disk.files && offset <= |wal.disk.files[segment]|
        && wal.disk.files[segment][offset..] == L.Record(e)
    }

    lemma {:induction false} AppendJoins(h: W.Ledger, e: Event, maxBytes: nat)
      requires W.Matches(W.Up(wal.State()), h)
      ensures h.segments != [] && Join(W.LedgerStep(h, W.Append(e), maxBytes).segments) == Join(h.segments) + [e]
    {
      assert h.segments != [] && h.up by {
        hide W.MatchesDir;
      }
      hide *;
      AppendingJoins(h, e, maxBytes);
    }

    method Append(symbol: string, body: Event, rotate: bool) returns (seqId: u64, walOffset: nat)
      requires Usable()
      modifies `symbols, `nextId, `nextSeq, `active, `imms, `ledger, wal, wal.disk
      ensures Usable() && Model() == Step(old(Model()), Op.Append(symbol, body, rotate), sstTarget)
      ensures seqId == old(nextSeq) && walOffset == old(wal.currentOffset)
      ensures LoggedAt(old(wal.segmentId), walOffset, Stamped(old(Model()), symbol, body))
    {
      hide *;
      UsableParts();
      ModelIs();
      ghost var was := Model();
      var symId := Intern(symbol);
      seqId := nextSeq;
      nextSeq := (nextSeq + 1) % 0x1_0000_0000_0000_0000;
      var e := body.(sym := symId, seqId := seqId);
      walOffset := LogEvent(e);
      InsertActive(e, rotate);
      StaysUsable();
      ModelIs();
      AppendIsStep(was, Model(), symbol, body, rotate, symId, sstTarget);
    }

    method Remove(symbol: string, ts: u64, seqId: u64, rotate: bool) returns (walOffset: nat)
      requires Usable()
      modifies `symbols, `nextId, `active, `imms, `ledger, wal, wal.disk
      ensures Usable() && Model() == Step(old(Model()), Op.Remove(symbol, ts, seqId, rotate), sstTarget)
      ensures walOffset == old(wal.currentOffset)
      ensures LoggedAt(old(wal.segmentId), walOffset, TombstoneOf(old(Model()), symbol, ts, seqId))
      ensures TombstoneOf(old(Model()), symbol, ts, seqId) ==
        Event(ts, IdOf(old(Model()), symbol), seqId, 0xFF, 0, 0, 0, 0, 0, 0, 0)
    {
      hide *;
      UsableParts();
      ModelIs();
      ghost var was := Model();
      var symId := Intern(symbol);
      var d := Event(ts, symId, seqId, TOMBSTONE, 0, 0, 0, 0, 0, 0, 0);
      walOffset := LogEvent(d);
      InsertActive(d, rotate);
      StaysUsable();
      ModelIs();
      RemoveIsStep(was, Model(), symbol, ts, seqId, rotate, symId, sstTarget);
      TombstoneFields(was, symbol, ts, seqId);
    }

    // ---- flushes ----

    ghost function Level0(): seq<Input>
      requires Tables()
      reads `levels, `stored, `spent, disk
    {
      ViewOf(levels[0], stored)
    }

    ghost function Level1(): seq<Input>
      requires Tables()
      reads `levels, `stored, `spent, disk
    {
      ViewOf(levels[1], stored)
    }

    /** `do_flush`: a non-empty memtable becomes a level-0 table. */
    method DoFlush(mem: seq<Event>, seqNo: u64)
      requires Tables() && Cached() && E.Sorted(mem) && |mem| < TWO_32 && blockTarget < TWO_32 && bits <= TWO_32 - 8
      requires seqNo < spent && FlushPath(seqNo) !in stored
      modifies `levels, `stored, disk
      ensures Tables()
      ensures Cached()
      ensures Level0() == old(Level0()) + if mem == [] then [] else [Input(seqNo, mem)]
      ensures Level1() == old(Level1())
    {
      if mem == [] {
        assert old(Level0()) + [] == old(Level0());
        return;
      }
      ghost var t := Stored(Recipe(0, seqNo, blockTarget, F.Empty(hashes, bits)), mem);
      Flushable(t);
      hide *;
      var path := FlushPath(seqNo);
      var contents, meta := WriteTable(0, seqNo, blockTarget, hashes, bits, mem);
      var info := R.SSTableInfo(path, meta, |contents|);
      Install(info, contents, t, seqNo);
    }

    /** The finished file gets its name and joins level 0. */
    method Install(info: R.SSTableInfo, contents: seq<byte>, ghost t: Stored, ghost seqNo: u64)
      requires Tables() && Cached()
      requires seqNo < spent && info.path == FlushPath(seqNo) && info.path !in stored
      requires S.IsFile(contents, t.r, t.es)
      requires t.r.sequence == seqNo && info == R.SSTableInfo(info.path, MetaOf(t.r, t.es), |contents|)
      modifies `levels, `stored, disk
      ensures Tables()
      ensures Cached()
      ensures Level0() == old(Level0()) + [Input(seqNo, t.es)]
      ensures Level1() == old(Level1())
    {
      hide *;
      IsOpen();
      TableAdded(disk.files, levels, stored, spent, info, t, contents, cache.lru, seqNo);
      ViewsAre();
      disk.files := disk.files[info.path := contents];
      levels := levels[0 := levels[0] + [info]];
      stored := stored[info.path := t];
      IsClosed();
      ViewsAre();
    }

    lemma {:induction false} IsOpen()
      requires Tables() && Cached()
      ensures LevelsFine(disk.files, levels, stored, spent)
      ensures cache.Valid() && AllFit(stored) && IO.Coherent(cache.lru, StoreOf(stored))
    {
      hide LevelsFine;
      hide IO.Coherent;
      hide AllFit;
    }

    lemma {:induction false} IsClosed()
      requires LevelsFine(disk.files, levels, stored, spent) && AllFit(stored)
      requires cache.Valid() && IO.Coherent(cache.lru, StoreOf(stored))
      ensures Tables() && Cached()
    {
      hide LevelsFine;
      hide IO.Coherent;
      hide AllFit;
    }

    lemma {:induction false} ViewsAre()
      requires Tables()
      ensures |levels| == 4
      ensures (forall i :: 0 <= i < |levels[0]| ==> levels[0][i].path in stored)
              && Level0() == ViewOf(levels[0], stored)
      ensures (forall i :: 0 <= i < |levels[1]| ==> levels[1][i].path in stored)
              && Level1() == ViewOf(levels[1], stored)
    {
      LevelsParts(disk.files, levels, stored, spent);
      hide LevelsFine;
    }

    /** `flush_now`: rotates the active memtable and drains the immutable ones, oldest first. */
    method FlushNow()
      requires Valid() && sstSeq + |Pending(Model())| < TWO_64
      requires forall m :: m in Pending(Model()) ==> |m| < TWO_32
      modifies `active, `imms, `sstSeq, `spent, `levels, `stored, disk
      ensures Valid() && Model() == Flushed(old(Model()))
    {
      hide *;
      ValidParts();
      UsableParts();
      PendingParts();
      ghost var was := Model();
      ViewsAre();
      RotateActive();
      ViewsAre();
      DrainAll(was);
      StaysUsable();
      IsValid();
    }

    method RotateActive()
      modifies `active, `imms
      ensures active == [] && imms == old(if active != [] then imms + [active] else imms)
    {
      if active != [] {
        imms := imms + [active];
        active := [];
      }
    }

    method DrainAll(ghost was: State)
      requires Tables() && Cached() && active == [] && imms == Pending(was)
      requires spent == sstSeq == was.sstSeq && was.sstSeq + |Pending(was)| < TWO_64
      requires forall m :: m in Pending(was) ==> |m| < TWO_32 && E.Sorted(m) && m != []
      requires blockTarget < TWO_32 && bits <= TWO_32 - 8
      requires was == State(symbols, nextId, nextSeq, was.sstSeq, was.active, was.imms, Level0(), Level1(), Journaled())
      modifies `imms, `sstSeq, `spent, `levels, `stored, disk
      ensures Tables() && Cached() && Memory() && spent == sstSeq
      ensures Model() == Flushed(was)
    {
      hide *;
      ghost var l0, l1 := Level0(), Level1();
      Drain(Pending(was), was.sstSeq);
      FlushedModel(was, l0, l1);
      EmptyMemory();
    }

    lemma {:induction false} PendingParts()
      requires Tables() && Memory()
      ensures Pending(Model()) == if active != [] then imms + [active] else imms
      ensures forall m :: m in Pending(Model()) ==> E.Sorted(m) && m != []
      ensures Model() == State(symbols, nextId, nextSeq, sstSeq, active, imms, Level0(), Level1(), Journaled())
    {
      hide LevelsFine;
      assert forall m :: m in imms + [active] ==> m in imms || m == active;
    }

    lemma {:induction false} EmptyMemory()
      requires active == [] && imms == []
      ensures Memory()
    {
    }

    lemma {:induction false} FlushedModel(s: State, l0: seq<Input>, l1: seq<Input>)
      requires Tables() && active == [] && imms == []
      requires s == State(symbols, nextId, nextSeq, s.sstSeq, s.active, s.imms, l0, l1, Journaled())
      requires Grown(Level0(), l0, Pending(s), s.sstSeq) && Level1() == l1
      requires sstSeq == s.sstSeq + |Pending(s)| < TWO_64
      ensures Model() == Flushed(s)
    {
      hide LevelsFine;
      hide Pending;
    }

    /** The draining loop: every pending run takes the next sequence and becomes a level-0 table. */
    method Drain(ghost pending: seq<seq<Event>>, ghost q: u64)
      requires Tables() && Cached() && imms == pending && spent == sstSeq == q && q + |pending| < TWO_64
      requires forall m :: m in pending ==> |m| < TWO_32 && E.Sorted(m) && m != []
      requires blockTarget < TWO_32 && bits <= TWO_32 - 8
      modifies `imms, `sstSeq, `spent, `levels, `stored, disk
      ensures Tables() && Cached() && imms == [] && spent == sstSeq == q + |pending|
      ensures Grown(Level0(), old(Level0()), pending, q)
      ensures Level1() == old(Level1())
    {
      assert TWO_64 == 0x1_0000_0000_0000_0000;
      hide *;
      ghost var k, l0, l1 := 0, Level0(), Level1();
      NoneNumbered(l0, pending, q);
      IsDraining(pending, q, 0, l0, l1);
      while imms != []
        invariant k <= |pending| && imms == pending[k..] && Draining(pending, q, k, l0, l1)
        decreases |imms|
      {
        assert pending[k] in pending;
        DrainOne(pending, q, k, l0, l1);
        k := k + 1;
      }
      DrainDone(pending, q, k, l0, l1);
    }

    lemma {:induction false} DrainDone(pending: seq<seq<Event>>, q: u64, k: nat, l0: seq<Input>, l1: seq<Input>)
      requires Draining(pending, q, k, l0, l1) && imms == []
      ensures Tables() && Cached() && spent == sstSeq == q + |pending|
      ensures Grown(Level0(), l0, pending, q) && Level1() == l1
    {
      hide *;
      DrainingParts(pending, q, k, l0, l1);
      assert |pending[k..]| == |pending| - k;
      assert pending[..k] == pending;
    }

    /** The first k pending runs are tables, the others still in memory. */
    ghost predicate Draining(pending: seq<seq<Event>>, q: u64, k: nat, l0: seq<Input>, l1: seq<Input>)
      reads `imms, `sstSeq, `spent, `levels, `stored, disk, cache
    {
      && k <= |pending| && imms == pending[k..] && spent == sstSeq == q + k && Tables() && Cached()
      && Grown(Level0(), l0, pending[..k], q) && Level1() == l1
    }

    lemma {:induction false} IsDraining(pending: seq<seq<Event>>, q: u64, k: nat, l0: seq<Input>, l1: seq<Input>)
      requires k <= |pending| && imms == pending[k..] && spent == sstSeq == q + k && Tables() && Cached()
      requires Grown(Level0(), l0, pending[..k], q) && Level1() == l1
      ensures Draining(pending, q, k, l0, l1)
    {
      hide Tables;
      hide Cached;
      hide Grown;
    }

    lemma {:induction false} DrainingParts(pending: seq<seq<Event>>, q: u64, k: nat, l0: seq<Input>, l1: seq<Input>)
      requires Draining(pending, q, k, l0, l1)
      ensures k <= |pending| && imms == pending[k..] && spent == sstSeq == q + k && Tables() && Cached()
      ensures Grown(Level0(), l0, pending[..k], q) && Level1() == l1
    {
      hide Tables;
      hide Cached;
      hide Grown;
    }

    method DrainOne(ghost pending: seq<seq<Event>>, ghost q: u64, ghost k: nat, ghost l0: seq<Input>,
        ghost l1: seq<Input>)
      requires Draining(pending, q, k, l0, l1) && k < |pending|
      requires q + |pending| < 0x1_0000_0000_0000_0000 && |pending[k]| < TWO_32 && E.Sorted(pending[k])
               && pending[k] != []
      requires blockTarget < TWO_32 && bits <= TWO_32 - 8
      modifies `imms, `sstSeq, `spent, `levels, `stored, disk
      ensures imms == pending[k + 1..] && Draining(pending, q, k + 1, l0, l1)
    {
      hide *;
      DrainingParts(pending, q, k, l0, l1);
      var mem, seqNo := imms[0], sstSeq;
      FreshName();
      SequenceSpent(sstSeq + 1);
      ViewsAre();
      ghost var before := Level0();
      imms := imms[1..];
      sstSeq := sstSeq + 1;
      spent := sstSeq;
      AreTables();
      ViewsAre();
      DoFlush(mem, seqNo);
      OneNumbered(l0, pending, q, k, before, Level0());
      IsDraining(pending, q, k + 1, l0, l1);
    }

    lemma {:induction false} AreTables()
      requires LevelsFine(disk.files, levels, stored, spent)
      ensures Tables()
    {
      hide LevelsFine;
    }

    lemma {:induction false} FreshName()
      requires Tables()
      ensures FlushPath(spent) !in stored
    {
      NewFlushName(levels[0], levels[1], stored, spent);
    }

    /** Nothing listed depends on sequences not yet spent. */
    lemma {:induction false} SequenceSpent(q: u64)
      requires Tables() && spent <= q
      ensures LevelsFine(disk.files, levels, stored, q)
    {
      hide LevelFine;
      hide AllFit;
      hide FlushPath;
      hide OutputPath;
    }

    // ---- compaction ----

    lemma {:induction false} SequenceLeft(s: State, target: nat)
      requires Room(s, target)
      ensures s.sstSeq + |NewTables(s, target)| + 1 < 0x1_0000_0000_0000_0000
    {
      hide NewTables;
      hide Pending;
    }

    /** Deletes the compacted files. */
    method RemoveFiles(infos: seq<R.SSTableInfo>)
      modifies disk
      ensures disk.files == Deleted(old(disk.files), infos)
    {
      for i := 0 to |infos|
        invariant disk.files == Deleted(old(disk.files), infos[..i])
      {
        assert infos[..i + 1][..i] == infos[..i];
        disk.files := disk.files - {infos[i].path};
      }
      assert infos[..|infos|] == infos;
    }

    /** The merge writes the new tables; under `Tables` every input can be read. */
    method RunMerge(files: seq<R.SSTableInfo>, seqNo: u64, ghost inputs: seq<Input>, ghost recipes: seq<Recipe>)
        returns (outputs: seq<R.SSTableInfo>)
      requires bits <= TWO_32 - 8 && R.AllHolding(disk.files, files, inputs, recipes)
      modifies disk
      ensures var job, c := R.Job("l1", 1, seqNo, F.Empty(hashes, bits)), ChunksOf(inputs, sstTarget);
              outputs == R.Outputs(job, c) && disk.files == R.Written(old(disk.files), job, c)
    {
      hide *;
      ghost var job := R.Job("l1", 1, seqNo, F.Empty(hashes, bits));
      var ok, out, stats := R.Run(disk, files, "l1", 1, seqNo, sstTarget, hashes, bits, inputs, recipes);
      assert ok;
      RunLeaves(inputs, files, job, sstTarget, old(disk.files), disk.files, out, stats);
      outputs := out;
    }

    /** Deletes the inputs, takes them out of level 0 and sorts the outputs into level 1. */
    method SwapLevels(files: seq<R.SSTableInfo>, outputs: seq<R.SSTableInfo>, ghost job: R.Job,
        ghost c: seq<seq<Event>>, ghost files0: map<string, seq<byte>>)
      requires F.WellFormed(job.filter) && outputs == R.Outputs(job, c) && disk.files == R.Written(files0, job, c)
      requires |levels| == 4 && files == levels[0] && levels[2] == levels[3] == []
      requires Fine(files0, levels[0], levels[1], stored, spent) && Coherent(cache.lru, stored) && cache.Valid()
      requires forall i :: 0 <= i < |levels[1]| ==> levels[1][i].path in stored
      modifies `levels, `stored, disk
      ensures |levels| == 4 && Replaced(files0, files, old(levels[1]), job, c, disk.files, levels)
      ensures Ready(job, c, old(levels[1])) ==> Tables() && Cached()
      ensures Ready(job, c, old(levels[1]))
          ==> Level0() == [] && Level1() == SortBySeq(old(ViewOf(levels[1], stored)) + Numbered(c, job.sequence))
    {
      hide *;
      if Ready(job, c, levels[1]) {
        CompactionOutcome(files0, levels[0], levels[1], stored, spent, cache.lru, job, c);
      }
      RemoveFiles(files);
      AllDropped(levels[0], files);
      levels := [DropListed(levels[0], files), SortInfos(levels[1] + outputs), levels[2], levels[3]];
      AreReplaced(files0, files, old(levels[1]), job, c);
      ghost var was := stored;
      stored := StoredAll(stored, job, c);
      if Ready(job, c, old(levels[1])) {
        CoherentIs(cache.lru, stored);
        IsClosed();
        ViewsAre();
      }
    }

    lemma {:induction false} AreReplaced(files0: map<string, seq<byte>>, l0: seq<R.SSTableInfo>, l1: seq<R.SSTableInfo>,
        job: R.Job, c: seq<seq<Event>>)
      requires F.WellFormed(job.filter) && disk.files == Deleted(R.Written(files0, job, c), l0)
      requires levels == [[], SortInfos(l1 + R.Outputs(job, c)), [], []]
      ensures Replaced(files0, l0, l1, job, c, disk.files, levels)
    {
      hide Deleted;
      hide SortInfos;
      hide R.Written;
      hide R.Outputs;
    }

    /** The job of a compaction into level 1. */
    ghost function Level1Job(seqNo: u64): (job: R.Job)
      requires bits <= TWO_32 - 8
      ensures F.WellFormed(job.filter)
    {
      R.Job("l1", 1, seqNo, F.Empty(hashes, bits))
    }

    lemma {:induction false} JobIs(seqNo: u64)
      requires bits <= TWO_32 - 8
      ensures Level1Job(seqNo) == R.Job("l1", 1, seqNo, F.Empty(hashes, bits))
    {
      hide F.Empty;
    }

    /** What the levels hold after a compaction of the state `was`. */
    ghost predicate AfterMerge(was: State)
      requires Tables()
      reads this, disk
    {
      && sstSeq == was.sstSeq + 1
      && (if NewTables(was, sstTarget) == [] then Level0() == was.l0 && Level1() == was.l1
          else Level0() == [] && Level1() == SortBySeq(was.l1 + NewTables(was, sstTarget)))
    }

    /** Spends one sequence, runs the merge and swaps the levels. */
    method MergeLevel0(ghost was: State)
      requires Tables() && Cached() && |levels| == 4 && Room(was, sstTarget)
      requires bits <= TWO_32 - 8 && R.PerFile(sstTarget) < TWO_32
      requires was.sstSeq == sstSeq == spent && was.l0 == Level0() && was.l1 == Level1()
      modifies `sstSeq, `spent, `levels, `stored, disk
      ensures |levels| == 4 && spent == sstSeq
      ensures NewTables(was, sstTarget) == [] ==> levels == old(levels)
      ensures NewTables(was, sstTarget) != [] ==>
        Replaced(old(disk.files), old(levels[0]), old(levels[1]), Level1Job(was.sstSeq), ChunksOf(was.l0, sstTarget),
          disk.files, levels)
      ensures !N.Collides(was, sstTarget) ==> Tables() && Cached()
      ensures !N.Collides(was, sstTarget) ==> AfterMerge(was)
    {
      hide *;
      ViewsAre();
      ModelParts();
      IsOpen();
      IsCoherent(cache.lru, stored);
      InputsHold(disk.files, levels[0], stored);
      var files, seqNo := levels[0], sstSeq;
      SequenceLeft(was, sstTarget);
      SequenceSpent(sstSeq + 1);
      ghost var files0, job, c := disk.files, R.Job("l1", 1, seqNo, F.Empty(hashes, bits)), ChunksOf(was.l0, sstTarget);
      FineOf(files0, levels, stored, sstSeq + 1);
      NewTablesAre(was, sstTarget);
      if !N.Collides(was, sstTarget) {
        FreeNames(was, sstTarget, job, levels[1], stored);
      }
      sstSeq := sstSeq + 1;
      spent := sstSeq;
      var outputs := RunMerge(files, seqNo, was.l0, RecipesOf(files, stored));
      if outputs == [] {
        NothingAdded(files0, levels[1], stored, job);
        AreTables();
        ViewsAre();
        NowMerged(was);
        return;
      }
      SwapLevels(files, outputs, job, c, files0);
      JobIs(seqNo);
      if !N.Collides(was, sstTarget) {
        NowMerged(was);
      }
    }

    lemma {:induction false} NowMerged(was: State)
      requires Tables() && sstSeq == was.sstSeq + 1
      requires NewTables(was, sstTarget) == [] ==> Level0() == was.l0 && Level1() == was.l1
      requires NewTables(was, sstTarget) != []
               ==> Level0() == [] && Level1() == SortBySeq(was.l1 + NewTables(was, sstTarget))
      ensures AfterMerge(was)
    {
      hide NewTables;
      hide SortBySeq;
      hide LevelsFine;
    }

    /** `do_compact_l0`: all of level 0 is merged into new level-1 tables. The result is the model's unless an output
        takes the name of a table that level 1 still lists; then that table's file is overwritten. */
    method CompactNow()
      requires Valid() && Room(Model(), sstTarget)
      modifies `sstSeq, `spent, `levels, `stored, disk
      ensures !old(N.Collides(Model(), sstTarget)) ==> Valid() && Model() == Compacted(old(Model()), sstTarget)
      ensures |levels| == |old(levels)| == 4
      ensures old(NewTables(Model(), sstTarget)) == [] ==> levels == old(levels)
      ensures old(NewTables(Model(), sstTarget)) != [] ==> InOrder(levels[1])
      ensures old(NewTables(Model(), sstTarget)) != [] ==>
        AllOverwritten(old(levels)[1], Level1Job(old(sstSeq)), old(ChunksOf(Model().l0, sstTarget)), disk.files,
          levels[1])
    {
      hide *;
      ValidParts();
      UsableParts();
      ghost var was := Model();
      ModelParts();
      ModelIs();
      if levels[0] == [] {
        NothingToCompact(was, sstTarget);
        N.NothingNew(was, sstTarget);
        StaysUsable();
        IsValid();
        return;
      }
      SequenceLeft(was, sstTarget);
      NamesAre();
      JobFits(was);
      MergeLevel0(was);
      if NewTables(was, sstTarget) != [] {
        ReplacedInOrder(old(disk.files), old(levels)[0], old(levels)[1], Level1Job(was.sstSeq),
          ChunksOf(was.l0, sstTarget),
          disk.files, levels);
        SharedNames(old(disk.files), old(levels)[0], old(levels)[1], Level1Job(was.sstSeq), ChunksOf(was.l0, sstTarget),
          disk.files, levels);
      }
      if !N.Collides(was, sstTarget) {
        CompactedModel(was);
        StaysUsable();
        IsValid();
      }
    }

    lemma {:induction false} NamesAre()
      requires Tables() && |levels| == 4
      ensures forall x :: 0 <= x < |levels[0]| ==> levels[0][x].path == FlushPath(levels[0][x].meta.sequence)
      ensures forall x :: 0 <= x < |levels[1]| ==> levels[1][x].path == OutputPath("l1", 1, levels[1][x].meta.sequence)
    {
      hide LevelFine;
      hide AllFit;
      hide FlushPath;
      hide OutputPath;
      hide Spent;
      hide InLevel;
    }

    lemma {:induction false} JobFits(was: State)
      requires bits <= TWO_32 - 8 && was.sstSeq + |NewTables(was, sstTarget)| + 1 < 0x1_0000_0000_0000_0000
      ensures var job := Level1Job(was.sstSeq);
              job.dir == "l1" && job.level == 1 && job.sequence + |ChunksOf(was.l0, sstTarget)| < TWO_64
    {
      NewTablesAre(was, sstTarget);
      hide F.Empty;
      hide NewTables;
      hide ChunksOf;
    }

    lemma {:induction false} CompactedModel(was: State)
      requires Tables() && was.l0 != [] && was.sstSeq + 1 < 0x1_0000_0000_0000_0000 && AfterMerge(was)
      requires was == State(symbols, nextId, nextSeq, was.sstSeq, active, imms, was.l0, was.l1, Journaled())
      ensures Model() == Compacted(was, sstTarget)
    {
      hide *;
      N.CompactExact(was, sstTarget);
      ModelIs();
      MergedParts(was);
    }

    lemma {:induction false} MergedParts(was: State)
      requires Tables() && AfterMerge(was)
      ensures sstSeq == was.sstSeq + 1
      ensures Level0() == if NewTables(was, sstTarget) == [] then was.l0 else []
      ensures Level1() == if NewTables(was, sstTarget) == [] then was.l1
              else SortBySeq(was.l1 + NewTables(was, sstTarget))
    {
      hide NewTables;
      hide SortBySeq;
      hide LevelsFine;
    }

    lemma {:induction false} ModelIs()
      requires Tables()
      ensures Model() == State(symbols, nextId, nextSeq, sstSeq, active, imms, Level0(), Level1(), Journaled())
    {
      hide LevelsFine;
      hide Journaled;
    }

    // ---- whole runs ----

    method Execute(op: Op)
      requires Valid() && N.Sound(Model(), op, sstTarget)
      modifies this, disk, wal, wal.disk
      ensures Valid() && Model() == Step(old(Model()), op, sstTarget)
    {
      hide *;
      ValidParts();
      UsableParts();
      ModelIs();
      SoundParts(Model(), op, sstTarget);
      StepIs(Model(), sstTarget);
      match op
      case Append(symbol, body, rotate) =>
        var _, _ := Append(symbol, body, rotate);
        IsValid();
      case Remove(symbol, ts, seqId, rotate) =>
        var _ := Remove(symbol, ts, seqId, rotate);
        IsValid();
      case FlushNow => FlushNow();
      case CompactNow => CompactNow();
    }

    /** Operations on a fresh database object leave the state of the model's run. */
    method Perform(ops: seq<Op>)
      requires Valid() && Model() == FRESH && N.SoundRun(ops, sstTarget)
      modifies this, disk, wal, wal.disk
      ensures Valid() && Model() == Run(ops, sstTarget)
    {
      hide *;
      RunStarts(ops, sstTarget);
      ValidParts();
      UsableParts();
      for i := 0 to |ops|
        invariant Valid() && Tables() && Model() == Run(ops[..i], sstTarget)
      {
        RunGoesOn(ops, i, sstTarget);
        Execute(ops[i]);
        ValidParts();
        UsableParts();
      }
      assert ops[..|ops|] == ops;
    }

    /** A run of operations on a fresh object, and a query: the rows are the first ones of what the model's run shows,
        and when nothing was removed they are the first of the events of the appends asked for. */
    method PerformAndQuery(ops: seq<Op>, req: Request) returns (rows: seq<Event>)
      requires Valid() && Model() == FRESH && N.SoundRun(ops, sstTarget)
      modifies this, disk, cache, wal, wal.disk
      ensures Valid() && rows == Answer(Run(ops, sstTarget), req)
      ensures AppendOnly(ops) && InWidth(Run(ops, sstTarget), Log(ops, sstTarget)) ==> AnswersAppends(rows, ops, req)
    {
      hide *;
      Perform(ops);
      ValidParts();
      rows := Query(req);
      IsValid();
      if AppendOnly(ops) && InWidth(Run(ops, sstTarget), Log(ops, sstTarget)) {
        RowsAnswer(rows, ops, sstTarget, req);
      }
    }
  }

  lemma {:induction false} AppendIsStep(s: State, t: State, symbol: string, body: Event, rotate: bool, symId: u32,
      target: nat)
    requires symId == if symbol in s.symbols then s.symbols[symbol] else s.nextId
    requires t.symbols == if symbol in s.symbols then s.symbols else s.symbols[symbol := symId]
    requires t.nextId == if symbol in s.symbols then s.nextId else (s.nextId + 1) % TWO_32
    requires t.nextSeq == (s.nextSeq + 1) % 0x1_0000_0000_0000_0000 && t.sstSeq == s.sstSeq && t.l0 == s.l0
             && t.l1 == s.l1
    requires var e := body.(sym := symId, seqId := s.nextSeq);
             && t.wal == s.wal + [e] && t.active == (if rotate then [] else E.Upsert(s.active, e))
             && t.imms == if rotate then s.imms + [E.Upsert(s.active, e)] else s.imms
    ensures t == Step(s, Op.Append(symbol, body, rotate), target)
    ensures Stamped(s, symbol, body) == body.(sym := symId, seqId := s.nextSeq)
  {
    hide E.Upsert;
  }

  lemma {:induction false} RemoveIsStep(s: State, t: State, symbol: string, ts: u64, seqId: u64, rotate: bool,
      symId: u32, target: nat)
    requires symId == if symbol in s.symbols then s.symbols[symbol] else s.nextId
    requires t.symbols == if symbol in s.symbols then s.symbols else s.symbols[symbol := symId]
    requires t.nextId == if symbol in s.symbols then s.nextId else (s.nextId + 1) % TWO_32
    requires t.nextSeq == s.nextSeq && t.sstSeq == s.sstSeq && t.l0 == s.l0 && t.l1 == s.l1
    requires var e := Event(ts, symId, seqId, TOMBSTONE, 0, 0, 0, 0, 0, 0, 0);
             && t.wal == s.wal + [e] && t.active == (if rotate then [] else E.Upsert(s.active, e))
             && t.imms == if rotate then s.imms + [E.Upsert(s.active, e)] else s.imms
    ensures t == Step(s, Op.Remove(symbol, ts, seqId, rotate), target)
    ensures TombstoneOf(s, symbol, ts, seqId) == Event(ts, symId, seqId, TOMBSTONE, 0, 0, 0, 0, 0, 0, 0)
  {
    hide E.Upsert;
  }

  lemma {:induction false} RunStarts(ops: seq<Op>, target: nat)
    ensures Run(ops[..0], target) == FRESH
  {
  }

  lemma {:induction false} RunGoesOn(ops: seq<Op>, i: nat, target: nat)
    requires i < |ops| && N.SoundRun(ops, target)
    ensures N.Sound(Run(ops[..i], target), ops[i], target)
    ensures Run(ops[..i + 1], target) == Step(Run(ops[..i], target), ops[i], target)
  {
    assert ops[..i + 1][..i] == ops[..i];
    hide Step;
    hide N.Sound;
  }

  lemma {:induction false} SoundParts(s: State, op: Op, target: nat)
    requires N.Sound(s, op, target)
    ensures Room(s, target) && s.sstSeq + |Pending(s)| < TWO_64
    ensures forall m :: m in Pending(s) ==> |m| < TWO_32
    ensures op.CompactNow? ==> !N.Collides(s, target)
  {
    hide NewTables;
    hide Pending;
    hide N.Collides;
  }

  lemma {:induction false} StepIs(s: State, target: nat)
    ensures Step(s, FlushNow, target) == Flushed(s) && Step(s, CompactNow, target) == Compacted(s, target)
  {
    hide Flushed;
    hide Compacted;
  }
}
