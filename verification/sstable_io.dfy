/** The table writer and reader as objects, tied to the file format and the scan results. */
module TableIO {
  import opened Bytes
  import opened Core
  import opened TableFormat
  import opened SSTables
  import opened Wrappers
  import B = Blocks
  import C = Caches
  import E = Events
  import F = Bloom
  import X = Indexes

  // ---- writing ----

  ghost function Closed(es: seq<Event>, target: nat): (p: seq<seq<Event>>)
    ensures NoneEmpty(p)
  {
    var p := Pack(es, target);
    if p == [] then [] else p[..|p| - 1]
  }

  ghost function Open(es: seq<Event>, target: nat): seq<Event> {
    var p := Pack(es, target);
    if p == [] then [] else p[|p| - 1]
  }

  ghost function EntryFor(before: seq<byte>, b: seq<Event>): X.IndexEntry
    requires b != []
  {
    X.IndexEntry(KeyOf(b[0]), |before| % TWO_64, |B.EncodeBlock(b)| % TWO_32)
  }

  lemma {:induction false} NextEvent(es: seq<Event>, e: Event, target: nat)
    ensures B.HasRoom(Open(es, target), target)
        ==> Closed(es + [e], target) == Closed(es, target) && Open(es + [e], target) == Open(es, target) + [e]
    ensures !B.HasRoom(Open(es, target), target)
        ==> Open(es, target) != [] && Closed(es + [e], target) == Closed(es, target) + [Open(es, target)]
            && Open(es + [e], target) == [e]
  {
    assert (es + [e])[..|es|] == es;
    hide B.HasRoom;
    var p := Pack(es, target);
    assert Pack(es + [e], target) == AddTo(p, e, target);
    if p == [] {
      assert B.HasRoom([], target) by {
        RoomForFirst(target);
      }
      assert p + [[e]] == [[e]] && [[e]][..0] == [] && [] + [e] == [e];
    } else {
      assert p == p[..|p| - 1] + [p[|p| - 1]];
    }
  }

  lemma {:induction false} RoomForFirst(target: nat)
    ensures B.HasRoom([], target)
  {
  }

  lemma {:induction false} BlocksSnoc(p: seq<seq<Event>>, b: seq<Event>)
    requires NoneEmpty(p) && b != []
    ensures NoneEmpty(p + [b])
    ensures BlockBytes(p + [b]) == BlockBytes(p) + B.EncodeBlock(b)
    ensures EntriesOf(p + [b]) == EntriesOf(p) + [EntryFor(BlockBytes(p), b)]
  {
    hide B.EncodeBlock;
    assert (p + [b])[..|p|] == p;
  }

  lemma {:induction false} ClosedAndOpen(es: seq<Event>, target: nat)
    ensures Open(es, target) == [] <==> es == []
    ensures es == [] ==> Closed(es, target) == [] == Pack(es, target)
    ensures es != [] ==> Pack(es, target) == Closed(es, target) + [Open(es, target)]
  {
  }

  lemma {:induction false} KeyFilterSnoc(f: F.Filter, es: seq<Event>, e: Event)
    requires F.WellFormed(f)
    ensures KeyFilter(f, es + [e]) == F.WithKey(KeyFilter(f, es), EncodeKey(KeyOf(e)))
  {
    assert (es + [e])[..|es|] == es;
  }

  class SSTableWriter {
    const level: u32
    const sequence: u64
    const builder: B.BlockBuilder
    const index: X.IndexBlock
    const filter: F.BloomFilter
    ghost const recipe: Recipe
    var file: seq<byte>
    var writeOffset: u64
    var eventCount: u64
    var minKey: Key
    var maxKey: Key
    var hasAny: bool
    ghost var added: seq<Event>

    ghost predicate Valid()
      reads this, builder, index, filter
    {
      && recipe.level == level && recipe.sequence == sequence && recipe.target == builder.target
      && F.WellFormed(recipe.filter) && filter.Value() == KeyFilter(recipe.filter, added)
      && Laid(added) && Counted()
    }

    ghost predicate Laid(es: seq<Event>)
      reads `file, `writeOffset, builder, index
    {
      && builder.events == Open(es, builder.target)
      && file == BlockBytes(Closed(es, builder.target))
      && index.entries == EntriesOf(Closed(es, builder.target))
      && writeOffset == |file| % TWO_64
    }

    ghost predicate Counted()
      reads `added, `eventCount, `minKey, `maxKey, `hasAny
    {
      && eventCount == |added| % TWO_64 && (hasAny <==> added != [])
      && minKey == (if added == [] then MIN_KEY else KeyOf(added[0]))
      && maxKey == (if added == [] then MIN_KEY else KeyOf(added[|added| - 1]))
    }

    /** The filter's sizing is given; a size whose byte count wraps would leave it without bytes. */
    constructor (lvl: u32, seqNo: u64, target: nat, hashes: u32, bits: u32)
      requires bits <= TWO_32 - 8
      ensures Valid() && added == [] && fresh(builder) && fresh(index) && fresh(filter)
      ensures recipe == Recipe(lvl, seqNo, target, F.Empty(hashes, bits))
    {
      level, sequence := lvl, seqNo;
      builder := new B.BlockBuilder(target);
      index := new X.IndexBlock();
      filter := new F.BloomFilter(hashes, bits);
      recipe := Recipe(lvl, seqNo, target, F.Empty(hashes, bits));
      file, writeOffset, eventCount, minKey, maxKey, hasAny := [], 0, 0, MIN_KEY, MIN_KEY, false;
      added := [];
    }

    method WriteBytes(data: seq<byte>)
      requires writeOffset == |file| % TWO_64
      modifies `file, `writeOffset
      ensures file == old(file) + data && writeOffset == |file| % TWO_64
    {
      file, writeOffset := file + data, (writeOffset + |data|) % TWO_64;
    }

    /** Appends the open block to the file, records it in the index and empties the builder. */
    method FlushBlock()
      requires writeOffset == |file| % TWO_64
      modifies `file, `writeOffset, builder, index
      ensures builder.events == [] && writeOffset == |file| % TWO_64
      ensures old(builder.events) == [] ==> file == old(file) && index.entries == old(index.entries)
      ensures old(builder.events) != []
          ==> file == old(file) + B.EncodeBlock(old(builder.events))
              && index.entries == old(index.entries) + [EntryFor(old(file), old(builder.events))]
    {
      hide B.EncodeBlock;
      if builder.events == [] {
        return;
      }
      var firstKey, offset := KeyOf(builder.events[0]), writeOffset;
      var data := builder.Finish();
      WriteBytes(data);
      index.Add(firstKey, offset, |data| % 0x1_0000_0000);
      builder.Reset();
    }

    method Add(e: Event)
      requires Valid()
      modifies this, builder, index, filter
      ensures Valid() && added == old(added) + [e]
    {
      hide Laid;
      hide EncodeKey;
      hide F.WellFormed;
      hide F.WithKey;
      KeyFilterSnoc(recipe.filter, added, e);
      hide KeyFilter;
      hide F.BloomFilter.Value;
      if !hasAny {
        minKey, hasAny := KeyOf(e), true;
      }
      maxKey := KeyOf(e);
      eventCount := (eventCount + 1) % TWO_64;
      filter.Add(EncodeKey(KeyOf(e)));
      Place(e, added);
      added := added + [e];
    }

    /** The event goes to the open block, or closes it and opens the next. */
    method Place(e: Event, ghost es: seq<Event>)
      requires Laid(es)
      modifies `file, `writeOffset, builder, index
      ensures Laid(es + [e])
    {
      hide B.HasRoom;
      hide Open;
      hide Closed;
      hide BlockBytes;
      hide EntriesOf;
      hide EntryFor;
      hide B.EncodeBlock;
      NextEvent(es, e, builder.target);
      var ok := builder.Add(e);
      if !ok {
        BlocksSnoc(Closed(es, builder.target), Open(es, builder.target));
        FlushBlock();
        RoomForFirst(builder.target);
        ok := builder.Add(e);
        assert ok;
        assert [] + [e] == [e];
      }
    }

    /** Ends the file; what is on disk is determined by the recipe and the events added. */
    method Finish() returns (meta: Meta, size: nat)
      requires Valid()
      modifies this, builder, index
      ensures file == FileOf(recipe, added) && meta == MetaOf(recipe, added) && size == |file| && added == old(added)
    {
      hide Pack;
      hide BlockBytes;
      hide EntriesOf;
      hide Open;
      hide Closed;
      hide KeyFilter;
      hide F.WellFormed;
      hide F.EncodeFilter;
      hide X.EncodeIndex;
      hide EncodeMeta;
      hide EncodeFooter;
      hide B.EncodeBlock;
      FlushBlock();
      Flushed(added, builder.target, old(file), old(index.entries), file, index.entries);
      ghost var data := file;
      var filterData, filterOff := F.EncodeFilter(filter.Value()), writeOffset;
      WriteBytes(filterData);
      var idxData := index.Encode();
      var idxOff := writeOffset;
      WriteBytes(idxData);
      meta := Meta(eventCount, filterOff, minKey, maxKey, level, sequence);
      var metaData, metaOff := EncodeMeta(meta), writeOffset;
      WriteBytes(metaData);
      var footer := Footer(filterOff, |filterData| % TWO_64, idxOff, |idxData| % TWO_64, metaOff, |metaData| % TWO_64);
      WriteBytes(EncodeFooter(footer));
      assert file == Assemble(data, filterData, idxData, metaData);
      size := |file|;
    }
  }

  /** Closing the open block completes the packing. */
  lemma {:induction false} Flushed(es: seq<Event>, target: nat, f0: seq<byte>, x0: seq<X.IndexEntry>, f1: seq<byte>,
      x1: seq<X.IndexEntry>)
    requires f0 == BlockBytes(Closed(es, target)) && x0 == EntriesOf(Closed(es, target))
    requires Open(es, target) == [] ==> f1 == f0 && x1 == x0
    requires Open(es, target) != []
         ==> f1 == f0 + B.EncodeBlock(Open(es, target)) && x1 == x0 + [EntryFor(f0, Open(es, target))]
    ensures f1 == BlockBytes(Pack(es, target)) && x1 == EntriesOf(Pack(es, target))
  {
    ClosedAndOpen(es, target);
    hide Closed;
    hide Open;
    hide Pack;
    hide B.EncodeBlock;
    hide BlockBytes;
    hide EntriesOf;
    if Open(es, target) != [] {
      BlocksSnoc(Closed(es, target), Open(es, target));
    }
  }

  // ---- reading through a cache ----

  /** A cached entry holds the bytes of the block that the file's index places at its offset. */
  ghost predicate Genuine(x: C.Entry, t: Table) {
    forall i :: 0 <= i < |t.index| && t.index[i].offset == x.key.offset
            ==> Pread(t.file, t.index[i].offset, t.index[i].size) == Ok(x.data)
  }

  /** Every cached entry belongs to a known file and is genuine. */
  ghost predicate Coherent(lru: seq<C.Entry>, store: map<string, Table>) {
    forall x :: x in lru ==> x.key.path in store && Genuine(x, store[x.key.path])
  }

  /** No two blocks share an offset and differ in size. */
  ghost predicate Regular(t: Table) {
    forall i, j :: 0 <= i < |t.index| && 0 <= j < |t.index| && t.index[i].offset == t.index[j].offset
               ==> t.index[i].size == t.index[j].size
  }

  lemma {:induction false} OffsetsRise(p: seq<seq<Event>>, i: nat, j: nat)
    requires NoneEmpty(p) && i < j <= |p|
    ensures |BlockBytes(p[..i])| < |BlockBytes(p[..j])|
  {
    assert p[..j][..j - 1] == p[..j - 1];
    hide B.EncodeBlock;
    if i < j - 1 {
      OffsetsRise(p, i, j - 1);
    }
  }

  lemma {:induction false} OffsetOf(t: Table, p: seq<seq<Event>>, i: nat)
    requires Over(t, p) && |t.index| == |p| && i < |p|
    ensures NoneEmpty(p[..i]) && t.index[i].offset == |BlockBytes(p[..i])|
  {
    hide *;
    OverIs(t, p);
    IsNonEmpty(p, i);
    EntryOf(p, i);
    BlockLies(p, i);
    Begins(t, p, i, |BlockBytes(p[..i])|, |B.EncodeBlock(p[i])|);
    OffsetFits(|BlockBytes(p[..i])|, |t.file|);
  }

  lemma {:induction false} OffsetFits(at: nat, n: nat)
    requires at <= n < TWO_64
    ensures at % TWO_64 == at
  {
  }

  lemma {:induction false} WrittenRegular(t: Table, p: seq<seq<Event>>)
    requires Over(t, p)
    ensures Regular(t)
  {
    OverIs(t, p);
    hide *;
    forall i: nat, j: nat | i < j < |t.index| ensures t.index[i].offset < t.index[j].offset {
      OffsetsApart(t, p, i, j);
    }
    RisingRegular(t);
  }

  lemma {:induction false} OffsetsApart(t: Table, p: seq<seq<Event>>, i: nat, j: nat)
    requires Over(t, p) && NoneEmpty(p) && |t.index| == |p| && i < j < |p|
    ensures t.index[i].offset < t.index[j].offset
  {
    hide *;
    OffsetOf(t, p, i);
    OffsetOf(t, p, j);
    OffsetsRise(p, i, j);
  }

  lemma {:induction false} RisingRegular(t: Table)
    requires forall i: nat, j: nat :: i < j < |t.index| ==> t.index[i].offset < t.index[j].offset
    ensures Regular(t)
  {
  }

  /** Putting a block that was read keeps the cache coherent. */
  lemma {:induction false} PutCoherent(lru: seq<C.Entry>, store: map<string, Table>, path: string, t: Table, i: nat,
      data: seq<byte>, bound: nat)
    requires Coherent(lru, store) && path in store && store[path] == t && Regular(t) && i < |t.index|
    requires Pread(t.file, t.index[i].offset, t.index[i].size) == Ok(data)
    ensures var key := C.CacheKey(path, t.index[i].offset);
            Coherent(C.Fit([C.Entry(key, data)] + C.Without(lru, key), bound), store)
  {
    var key := C.CacheKey(path, t.index[i].offset);
    var l := [C.Entry(key, data)] + C.Without(lru, key);
    C.FitIsLongest(l, bound, 0);
    forall x | x in C.Fit(l, bound) ensures x.key.path in store && Genuine(x, store[x.key.path]) {
      assert x in l;
      C.WithoutMember(lru, key, x);
    }
  }

  lemma {:induction false} TouchCoherent(lru: seq<C.Entry>, store: map<string, Table>, key: C.CacheKey)
    requires Coherent(lru, store)
    ensures Coherent(C.Touch(lru, key), store)
  {
    C.LookupMember(lru, key);
    forall x | x in C.Touch(lru, key) ensures x in lru {
      C.WithoutMember(lru, key, x);
    }
  }

  lemma {:induction false} HitGenuine(lru: seq<C.Entry>, store: map<string, Table>, path: string, t: Table, i: nat)
    requires Coherent(lru, store) && path in store && store[path] == t && i < |t.index|
    requires C.Lookup(lru, C.CacheKey(path, t.index[i].offset)).Some?
    ensures Pread(t.file, t.index[i].offset, t.index[i].size)
            == Ok(C.Lookup(lru, C.CacheKey(path, t.index[i].offset)).value)
  {
    C.LookupMember(lru, C.CacheKey(path, t.index[i].offset));
  }

  lemma {:induction false} SpanIsSelected(index: seq<X.IndexEntry>, lo: Key, hi: Key, idxs: seq<nat>)
      returns (first: nat, stop: nat)
    requires index == [] ==> idxs == []
    requires index != [] ==> exists i :: X.IsStart(index, lo, i) && idxs == X.Span(index, i, hi)
    ensures Selected(index, lo, hi, first, stop) && stop == first + |idxs| <= |index|
    ensures forall j :: 0 <= j < |idxs| ==> idxs[j] == first + j
  {
    hide Less;
    first, stop := 0, 0;
    if index != [] {
      first :| X.IsStart(index, lo, first) && idxs == X.Span(index, first, hi);
      stop := first + |idxs|;
    }
  }

  class SSTableReader {
    const path: string
    /** The bytes behind the descriptor; tables never change once written. */
    const file: seq<byte>
    const cache: C.BlockCache?
    const index: X.IndexBlock
    const filter: F.BloomFilter
    var meta: Meta

    function Value(): Table
      reads this, index, filter
    {
      Table(file, meta, index.entries, filter.Value())
    }

    /** The cache, when there is one, knows this file truthfully. */
    ghost predicate Usable(store: map<string, Table>)
      reads this, index, filter, cache
    {
      cache != null ==>
        cache.Valid() && path in store && store[path] == Value() && Regular(Value()) && Coherent(cache.lru, store)
    }

    constructor (name: string, contents: seq<byte>, blockCache: C.BlockCache?)
      ensures path == name && file == contents && cache == blockCache && fresh(index) && fresh(filter)
    {
      path, file, cache := name, contents, blockCache;
      index := new X.IndexBlock();
      filter := new F.BloomFilter(0, 0);
      meta := Meta(0, 0, MIN_KEY, MIN_KEY, 0, 0);
    }

    method LoadFooterAndIndex() returns (ok: bool)
      modifies `meta, index, filter
      ensures ok == OpenTable(file).Ok?
      ensures ok ==> Value() == OpenTable(file).value
    {
      hide DecodeFooter;
      hide F.DecodeFilter;
      hide X.DecodeIndex;
      hide DecodeMeta;
      if |file| < FOOTER_SIZE {
        return false;
      }
      var footer := DecodeFooter(file[|file| - FOOTER_SIZE..]);
      if footer.Err? {
        return false;
      }
      var ft := footer.value;
      if !InBounds(ft.filterOff, ft.filterSize, |file|) || !InBounds(ft.idxOff, ft.idxSize, |file|)
         || !InBounds(ft.metaOff, ft.metaSize, |file|) {
        return false;
      }
      if ft.filterSize > 0 {
        var data := Pread(file, ft.filterOff, ft.filterSize);
        if data.Err? {
          return false;
        }
        var f := F.DecodeFilter(data.value);
        if f.Err? {
          return false;
        }
        filter.k, filter.m, filter.bits := f.value.k, f.value.m, f.value.bits;
      } else {
        filter.k, filter.m, filter.bits := 0, 0, [];
      }
      var idxData := Pread(file, ft.idxOff, ft.idxSize);
      if idxData.Err? {
        return false;
      }
      var entries := X.Decode(idxData.value);
      if entries.Err? {
        return false;
      }
      index.entries := entries.value;
      var metaData := Pread(file, ft.metaOff, ft.metaSize);
      if metaData.Err? {
        return false;
      }
      var m := DecodeMeta(metaData.value);
      if m.Err? {
        return false;
      }
      meta := m.value;
      return true;
    }

    /** A cache hit and a read from the file give the same block. */
    method ReadBlockAt(i: nat, ghost store: map<string, Table>) returns (r: Result<B.Block>)
      requires i < |index.entries| && Usable(store)
      modifies cache
      ensures Usable(store) && r == ReadBlock(Value(), index.entries[i])
    {
      hide B.DecodeBlock;
      hide Regular;
      hide Coherent;
      hide Pread;
      hide C.Lookup;
      hide C.Touch;
      hide C.Fit;
      hide C.Without;
      var entry := index.entries[i];
      if cache != null {
        ghost var was := cache.lru;
        var cached := cache.Get(path, entry.offset);
        TouchCoherent(was, store, C.CacheKey(path, entry.offset));
        if cached.Some? {
          HitGenuine(was, store, path, Value(), i);
          r := B.Decode(cached.value);
          return;
        }
      }
      var data := Pread(file, entry.offset, entry.size);
      if data.Err? {
        return Err;
      }
      if cache != null {
        PutCoherent(cache.lru, store, path, Value(), i, data.value, cache.maxBytes);
        cache.Put(path, entry.offset, data.value);
      }
      r := B.Decode(data.value);
    }

    /** The filter is consulted for single keys only. */
    method MayHold(lo: Key, hi: Key) returns (b: bool)
      requires lo == hi ==> F.WellFormed(filter.Value())
      ensures b == MayContain(Value(), lo, hi)
    {
      hide F.MayContain;
      hide EncodeKey;
      if Less(hi, meta.minKey) || Less(meta.maxKey, lo) {
        return false;
      }
      if lo == hi && filter.m != 0 {
        b := F.Test(filter.Value(), EncodeKey(lo));
        return;
      }
      return true;
    }

    method ScanRange<S>(lo: Key, hi: Key, init: S, f: (S, Event) -> E.Turn<S>, ghost store: map<string, Table>)
        returns (r: Scan<S>)
      requires (lo == hi ==> F.WellFormed(filter.Value())) && Usable(store)
      modifies cache
      ensures Usable(store) && ScanResult(Value(), lo, hi, init, f, r)
    {
      hide *;
      ghost var v := Value();
      ValueParts();
      var may := MayHold(lo, hi);
      if !may {
        r := Scan(E.Turn(init, true), true);
        RuledOutResult(v, lo, hi, init, f);
        return;
      }
      var idxs := index.BlocksInRange(lo, hi);
      ghost var first, stop := SpanIsSelected(index.entries, lo, hi, idxs);
      var t := E.Turn(init, true);
      for j := 0 to |idxs|
        invariant Usable(store) && Value() == v && v.index == index.entries
        invariant ScanSpan(v, first + j, stop, lo, hi, t.state, f) == ScanSpan(v, first, stop, lo, hi, init, f)
      {
        var blk := ReadBlockAt(idxs[j], store);
        NextBlock(v, first + j, stop, lo, hi, t.state, f);
        if blk.Err? {
          r := Scan(E.Turn(t.state, true), false);
          SelectedResult(v, lo, hi, init, f, first, stop);
          return;
        }
        t := B.ScanBlock(blk.value.events, lo, hi, t.state, f);
        if !t.more {
          r := Scan(t, true);
          SelectedResult(v, lo, hi, init, f, first, stop);
          return;
        }
      }
      SpanEnds(v, stop, lo, hi, t.state, f);
      r := Scan(E.Turn(t.state, true), true);
      SelectedResult(v, lo, hi, init, f, first, stop);
    }

    lemma {:induction false} ValueParts()
      ensures Value().index == index.entries
    {
    }

    /** `out` and `found` of the point lookup, as an option. */
    method Get(key: Key, ghost store: map<string, Table>) returns (r: Scan<Option<Event>>)
      requires F.WellFormed(filter.Value()) && Usable(store)
      modifies cache
      ensures Usable(store) && GetResult(Value(), key, r)
    {
      hide F.MayContain;
      hide EncodeKey;
      hide ScanResult;
      hide Usable;
      hide F.WellFormed;
      if filter.m != 0 {
        var may := F.Test(filter.Value(), EncodeKey(key));
        if !may {
          return Scan(E.Turn(None, true), true);
        }
      }
      r := ScanRange(key, key, None, Capture, store);
    }
  }

  lemma {:induction false} RuledOutResult<S>(t: Table, lo: Key, hi: Key, s: S, f: (S, Event) -> E.Turn<S>)
    requires !MayContain(t, lo, hi)
    ensures ScanResult(t, lo, hi, s, f, Scan(E.Turn(s, true), true))
  {
  }

  lemma {:induction false} SelectedResult<S>(t: Table, lo: Key, hi: Key, s: S, f: (S, Event) -> E.Turn<S>, first: nat,
      stop: nat)
    requires MayContain(t, lo, hi) && Selected(t.index, lo, hi, first, stop) && first <= stop <= |t.index|
    ensures ScanResult(t, lo, hi, s, f, ScanSpan(t, first, stop, lo, hi, s, f))
  {
    hide MayContain;
    hide Selected;
    hide ScanSpan;
  }

  lemma {:induction false} NextBlock<S>(t: Table, i: nat, stop: nat, lo: Key, hi: Key, s: S, f: (S, Event) -> E.Turn<S>)
    requires i < stop <= |t.index|
    ensures var r, result := ReadBlock(t, t.index[i]), ScanSpan(t, i, stop, lo, hi, s, f);
            if r.Err? then result == Scan(E.Turn(s, true), false)
            else
              var u := E.Feed(B.Reached(r.value.events, lo, hi), s, f);
              result == if u.more then ScanSpan(t, i + 1, stop, lo, hi, u.state, f) else Scan(u, true)
  {
    hide ReadBlock;
    hide E.Feed;
    hide B.Reached;
  }
}
