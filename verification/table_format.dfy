/** The file format of a table: packed blocks, filter, index, meta and footer, written and read back. */
module TableFormat {
  import opened Bytes
  import opened Core
  import opened Wrappers
  import B = Blocks
  import F = Bloom
  import X = Indexes

  const MAGIC: u32 := 0x4B535354
  const VERSION: u32 := 2
  const FOOTER_SIZE: nat := 56
  const META_SIZE: nat := 68

  // ---- packing events into blocks ----

  /** Each event joins the last block while that has room, else it opens a new one. */
  function Pack(es: seq<Event>, target: nat): (p: seq<seq<Event>>)
    ensures forall i :: 0 <= i < |p| ==> p[i] != []
    ensures p == [] <==> es == []
  {
    if es == [] then [] else AddTo(Pack(es[..|es| - 1], target), es[|es| - 1], target)
  }

  function AddTo(p: seq<seq<Event>>, e: Event, target: nat): (q: seq<seq<Event>>)
  {
    if p == [] || !B.HasRoom(p[|p| - 1], target) then p + [[e]]
    else p[..|p| - 1] + [p[|p| - 1] + [e]]
  }

  function Join(p: seq<seq<Event>>): seq<Event> {
    if p == [] then [] else Join(p[..|p| - 1]) + p[|p| - 1]
  }

  lemma {:induction false} JoinConcat(p: seq<seq<Event>>, q: seq<seq<Event>>)
    ensures Join(p + q) == Join(p) + Join(q)
  {
    if q == [] {
      assert p + q == p;
    } else {
      JoinConcat(p, q[..|q| - 1]);
      assert (p + q)[..|p + q| - 1] == p + q[..|q| - 1];
    }
  }

  /** Packing loses, adds and reorders nothing. */
  lemma {:induction false} PackJoins(es: seq<Event>, target: nat)
    ensures Join(Pack(es, target)) == es
  {
    if es != [] {
      var n := |es| - 1;
      var p, e := Pack(es[..n], target), es[n];
      PackJoins(es[..n], target);
      JoinOfAddTo(p, e, target);
      assert es[..n] + [e] == es;
    }
  }

  lemma {:induction false} JoinOfAddTo(p: seq<seq<Event>>, e: Event, target: nat)
    ensures Join(AddTo(p, e, target)) == Join(p) + [e]
  {
    if p == [] || !B.HasRoom(p[|p| - 1], target) {
      assert (p + [[e]])[..|p|] == p;
    } else {
      var q := p[..|p| - 1] + [p[|p| - 1] + [e]];
      assert q[..|q| - 1] == p[..|p| - 1];
    }
  }

  /** A block exceeds the target only by holding a single event, and is closed only when full. */
  lemma {:induction false} PackIsGreedy(es: seq<Event>, target: nat, i: nat)
    requires i < |Pack(es, target)|
    ensures var b := Pack(es, target)[i];
            && (|b| == 1 || EVENT_SIZE * |b| + B.OVERHEAD <= target)
            && (i + 1 < |Pack(es, target)| ==> !B.HasRoom(b, target))
    ensures |Pack(es, target)| <= |es|
  {
    var n := |es| - 1;
    var p := Pack(es[..n], target);
    if i < |p| {
      PackIsGreedy(es[..n], target, i);
    } else if p != [] {
      PackIsGreedy(es[..n], target, 0);
    }
  }

  // ---- data blocks and their index entries ----

  ghost predicate NoneEmpty(p: seq<seq<Event>>) {
    forall i :: 0 <= i < |p| ==> p[i] != []
  }

  ghost function BlockBytes(p: seq<seq<Event>>): seq<byte>
    requires NoneEmpty(p)
  {
    if p == [] then [] else BlockBytes(p[..|p| - 1]) + B.EncodeBlock(p[|p| - 1])
  }

  /** Offsets are 64 bits wide and sizes 32. */
  ghost function EntriesOf(p: seq<seq<Event>>): (s: seq<X.IndexEntry>)
    requires NoneEmpty(p)
    ensures |s| == |p|
  {
    if p == [] then []
    else
      var q, b := p[..|p| - 1], p[|p| - 1];
      EntriesOf(q) + [X.IndexEntry(KeyOf(b[0]), |BlockBytes(q)| % TWO_64, |B.EncodeBlock(b)| % TWO_32)]
  }

  lemma {:induction false} EntryOf(p: seq<seq<Event>>, i: nat)
    requires NoneEmpty(p) && i < |p|
    ensures EntriesOf(p)[i]
         == X.IndexEntry(KeyOf(p[i][0]), |BlockBytes(p[..i])| % TWO_64, |B.EncodeBlock(p[i])| % TWO_32)
  {
    hide B.EncodeBlock;
    hide BlockBytes;
    if i < |p| - 1 {
      EntryOf(p[..|p| - 1], i);
      assert p[..|p| - 1][..i] == p[..i];
    }
  }

  /** Block i lies right behind the blocks before it. */
  lemma {:induction false} BlockLies(p: seq<seq<Event>>, i: nat)
    requires NoneEmpty(p) && i < |p|
    ensures var at, n := |BlockBytes(p[..i])|, |B.EncodeBlock(p[i])|;
            at + n <= |BlockBytes(p)| && BlockBytes(p)[at..at + n] == B.EncodeBlock(p[i])
  {
    hide B.EncodeBlock;
    if i < |p| - 1 {
      BlockLies(p[..|p| - 1], i);
      assert p[..|p| - 1][..i] == p[..i];
    } else {
      assert p[..i] == p[..|p| - 1];
    }
  }

  // ---- meta block and footer ----

  datatype Meta = Meta(eventCount: u64, dataBytes: u64, minKey: Key, maxKey: Key, level: u32, sequence: u64)

  function EncodeMeta(m: Meta): (s: seq<byte>)
    ensures |s| == META_SIZE
  {
    EncodeLE(m.eventCount, 8) + EncodeLE(m.dataBytes, 8) + EncodeKey(m.minKey) + EncodeKey(m.maxKey)
    + EncodeLE(m.level, 4) + EncodeLE(m.sequence, 8)
  }

  function DecodeMeta(d: seq<byte>): Result<Meta> {
    if |d| < META_SIZE then Err
    else Ok(Meta(Read64(d, 0), Read64(d, 8), DecodeKey(d[16..36]), DecodeKey(d[36..56]), Read32(d, 56), Read64(d, 60)))
  }

  lemma {:induction false} MetaRoundTrip(m: Meta)
    ensures DecodeMeta(EncodeMeta(m)) == Ok(m)
  {
    hide EncodeKey;
    hide EncodeLE;
    var d := EncodeMeta(m);
    assert d[0..8] == EncodeLE(m.eventCount, 8);
    assert d[8..16] == EncodeLE(m.dataBytes, 8);
    assert d[16..36] == EncodeKey(m.minKey);
    assert d[36..56] == EncodeKey(m.maxKey);
    assert d[56..60] == EncodeLE(m.level, 4);
    assert d[60..68] == EncodeLE(m.sequence, 8);
    hide Read64;
    hide Read32;
    hide DecodeKey;
    Read64From(d, 0, m.eventCount);
    Read64From(d, 8, m.dataBytes);
    KeyRoundTrip(m.minKey);
    KeyRoundTrip(m.maxKey);
    Read32From(d, 56, m.level);
    Read64From(d, 60, m.sequence);
  }

  datatype Footer = Footer(filterOff: u64, filterSize: u64, idxOff: u64, idxSize: u64, metaOff: u64, metaSize: u64)

  function EncodeFooter(f: Footer): (s: seq<byte>)
    ensures |s| == FOOTER_SIZE
  {
    EncodeLE(f.filterOff, 8) + EncodeLE(f.filterSize, 8) + EncodeLE(f.idxOff, 8) + EncodeLE(f.idxSize, 8)
    + EncodeLE(f.metaOff, 8) + EncodeLE(f.metaSize, 8) + EncodeLE(MAGIC, 4) + EncodeLE(VERSION, 4)
  }

  /** The magic number is checked; the version is not. */
  function DecodeFooter(d: seq<byte>): Result<Footer>
    requires |d| == FOOTER_SIZE
  {
    if Read32(d, 48) != MAGIC then Err
    else Ok(Footer(Read64(d, 0), Read64(d, 8), Read64(d, 16), Read64(d, 24), Read64(d, 32), Read64(d, 40)))
  }

  lemma {:induction false} FooterRoundTrip(f: Footer)
    ensures DecodeFooter(EncodeFooter(f)) == Ok(f)
  {
    hide EncodeLE;
    var d := EncodeFooter(f);
    assert d[0..8] == EncodeLE(f.filterOff, 8);
    assert d[8..16] == EncodeLE(f.filterSize, 8);
    assert d[16..24] == EncodeLE(f.idxOff, 8);
    assert d[24..32] == EncodeLE(f.idxSize, 8);
    assert d[32..40] == EncodeLE(f.metaOff, 8);
    assert d[40..48] == EncodeLE(f.metaSize, 8);
    assert d[48..52] == EncodeLE(MAGIC, 4);
    hide Read64;
    hide Read32;
    Read64From(d, 0, f.filterOff);
    Read64From(d, 8, f.filterSize);
    Read64From(d, 16, f.idxOff);
    Read64From(d, 24, f.idxSize);
    Read64From(d, 32, f.metaOff);
    Read64From(d, 40, f.metaSize);
    Read32From(d, 48, MAGIC);
  }

  // ---- opening ----

  /** What a reader holds after opening. */
  datatype Table = Table(file: seq<byte>, meta: Meta, index: seq<X.IndexEntry>, filter: F.Filter)

  /** `pread` of exactly n bytes. */
  function Pread(file: seq<byte>, off: nat, n: nat): Result<seq<byte>> {
    if off + n <= |file| then Ok(file[off..off + n]) else Err
  }

  /** The sanity check adds in 64 bits. */
  predicate InBounds(off: u64, n: u64, fileSize: nat) {
    (off + n) % TWO_64 <= fileSize
  }

  function LoadFilter(file: seq<byte>, ft: Footer): Result<F.Filter> {
    if ft.filterSize == 0 then Ok(F.Filter(0, 0, []))
    else
      var r := Pread(file, ft.filterOff, ft.filterSize);
      if r.Err? then Err else F.DecodeFilter(r.value)
  }

  function LoadIndex(file: seq<byte>, ft: Footer): Result<seq<X.IndexEntry>> {
    var r := Pread(file, ft.idxOff, ft.idxSize);
    if r.Err? then Err else X.DecodeIndex(r.value)
  }

  function LoadMeta(file: seq<byte>, ft: Footer): Result<Meta> {
    var r := Pread(file, ft.metaOff, ft.metaSize);
    if r.Err? then Err else DecodeMeta(r.value)
  }

  function LoadParts(file: seq<byte>, ft: Footer): Result<Table> {
    var f, x, m := LoadFilter(file, ft), LoadIndex(file, ft), LoadMeta(file, ft);
    if f.Err? || x.Err? || m.Err? then Err else Ok(Table(file, m.value, x.value, f.value))
  }

  function OpenTable(file: seq<byte>): Result<Table> {
    if |file| < FOOTER_SIZE then Err
    else
      var ft := DecodeFooter(file[|file| - FOOTER_SIZE..]);
      if ft.Err? then Err
      else if !InBounds(ft.value.filterOff, ft.value.filterSize, |file|)
           || !InBounds(ft.value.idxOff, ft.value.idxSize, |file|)
           || !InBounds(ft.value.metaOff, ft.value.metaSize, |file|) then Err
      else LoadParts(file, ft.value)
  }

  // ---- what a writer leaves on disk ----

  /** The writer's parameters; the filter is the empty one it starts from. */
  datatype Recipe = Recipe(level: u32, sequence: u64, target: nat, filter: F.Filter)

  function KeyFilter(f: F.Filter, es: seq<Event>): (g: F.Filter)
    requires F.WellFormed(f)
    ensures F.WellFormed(g)
  {
    if es == [] then f else F.WithKey(KeyFilter(f, es[..|es| - 1]), EncodeKey(KeyOf(es[|es| - 1])))
  }

  ghost function MetaOf(r: Recipe, es: seq<Event>): Meta {
    Meta(|es| % TWO_64, |BlockBytes(Pack(es, r.target))| % TWO_64,
         if es == [] then MIN_KEY else KeyOf(es[0]),
         if es == [] then MIN_KEY else KeyOf(es[|es| - 1]),
         r.level, r.sequence)
  }

  /** The four sections and the footer that points to them; `write_offset_` is 64 bits wide. */
  function Assemble(data: seq<byte>, filter: seq<byte>, idx: seq<byte>, meta: seq<byte>): seq<byte> {
    var a, b, c := |data|, |data| + |filter|, |data| + |filter| + |idx|;
    data + filter + idx + meta
    + EncodeFooter(Footer(a % TWO_64, |filter| % TWO_64, b % TWO_64, |idx| % TWO_64, c % TWO_64, |meta| % TWO_64))
  }

  ghost function FileOf(r: Recipe, es: seq<Event>): seq<byte>
    requires F.WellFormed(r.filter)
  {
    var p := Pack(es, r.target);
    Assemble(BlockBytes(p), F.EncodeFilter(KeyFilter(r.filter, es)), X.EncodeIndex(EntriesOf(p)),
      EncodeMeta(MetaOf(r, es)))
  }

  /** Sizes and counts stay within the widths of the fields that record them. */
  ghost predicate Fits(r: Recipe, es: seq<Event>) {
    && F.WellFormed(r.filter)
    && |Pack(es, r.target)| < TWO_32
    && (forall i :: 0 <= i < |Pack(es, r.target)| ==> |B.EncodeBlock(Pack(es, r.target)[i])| < TWO_32)
    && |FileOf(r, es)| < TWO_64
  }

  ghost function TableOf(r: Recipe, es: seq<Event>): Table
    requires F.WellFormed(r.filter)
  {
    Table(FileOf(r, es), MetaOf(r, es), EntriesOf(Pack(es, r.target)), KeyFilter(r.filter, es))
  }

  // ---- opening what was written ----

  /** The sections of an assembled file lie where its footer says. */
  lemma {:induction false} Sections(data: seq<byte>, filter: seq<byte>, idx: seq<byte>, meta: seq<byte>)
      returns (ft: Footer)
    requires |Assemble(data, filter, idx, meta)| < TWO_64
    ensures var file := Assemble(data, filter, idx, meta);
            && FOOTER_SIZE <= |file| && DecodeFooter(file[|file| - FOOTER_SIZE..]) == Ok(ft)
            && ft.filterSize == |filter|
            && Pread(file, ft.filterOff, ft.filterSize) == Ok(filter)
            && Pread(file, ft.idxOff, ft.idxSize) == Ok(idx)
            && Pread(file, ft.metaOff, ft.metaSize) == Ok(meta)
            && data <= file
  {
    hide EncodeFooter;
    hide DecodeFooter;
    var file := Assemble(data, filter, idx, meta);
    var a, b, c := |data|, |data| + |filter|, |data| + |filter| + |idx|;
    ft := Footer(a, |filter|, b, |idx|, c, |meta|);
    assert file == data + filter + idx + meta + EncodeFooter(ft);
    FooterRoundTrip(ft);
    hide Assemble;
    Slices(data, filter, idx, meta, EncodeFooter(ft));
  }

  lemma {:induction false} Slices(data: seq<byte>, filter: seq<byte>, idx: seq<byte>, meta: seq<byte>, last: seq<byte>)
    ensures var file, a, b := data + filter + idx + meta + last, |data|, |data| + |filter|;
            var c := b + |idx|;
            && file[|file| - |last|..] == last && file[a..a + |filter|] == filter
            && file[b..b + |idx|] == idx && file[c..c + |meta|] == meta && data <= file
  {
  }

  /** A file whose sections decode opens. */
  lemma {:induction false} Opens(file: seq<byte>, ft: Footer, t: Table)
    requires FOOTER_SIZE <= |file| < TWO_64 && DecodeFooter(file[|file| - FOOTER_SIZE..]) == Ok(ft)
    requires ft.filterSize != 0 && Pread(file, ft.filterOff, ft.filterSize).Ok?
    requires Pread(file, ft.idxOff, ft.idxSize).Ok? && Pread(file, ft.metaOff, ft.metaSize).Ok?
    requires F.DecodeFilter(Pread(file, ft.filterOff, ft.filterSize).value) == Ok(t.filter)
    requires X.DecodeIndex(Pread(file, ft.idxOff, ft.idxSize).value) == Ok(t.index)
    requires DecodeMeta(Pread(file, ft.metaOff, ft.metaSize).value) == Ok(t.meta)
    requires t.file == file
    ensures OpenTable(file) == Ok(t)
  {
    hide DecodeFooter;
    hide DecodeMeta;
    hide F.DecodeFilter;
    hide X.DecodeIndex;
  }

  /** Every written file opens, to exactly the index, filter and meta that went into it. */
  lemma {:induction false} WrittenOpens(r: Recipe, es: seq<Event>)
    requires Fits(r, es)
    ensures OpenTable(FileOf(r, es)) == Ok(TableOf(r, es))
    ensures BlockBytes(Pack(es, r.target)) <= FileOf(r, es)
  {
    var p, g, m := Pack(es, r.target), KeyFilter(r.filter, es), MetaOf(r, es);
    WrittenIs(r, es);
    hide *;
    var ft := Sections(BlockBytes(p), F.EncodeFilter(g), X.EncodeIndex(EntriesOf(p)), EncodeMeta(m));
    F.FilterRoundTrip(g);
    X.IndexRoundTrip(EntriesOf(p));
    MetaRoundTrip(m);
    Opens(FileOf(r, es), ft, TableOf(r, es));
  }

  lemma {:induction false} WrittenIs(r: Recipe, es: seq<Event>)
    requires Fits(r, es)
    ensures var p, g, m := Pack(es, r.target), KeyFilter(r.filter, es), MetaOf(r, es);
            && |p| < TWO_32 && |g.bits| == F.ByteCount(g.m) && FOOTER_SIZE <= |FileOf(r, es)| < TWO_64
            && FileOf(r, es) == Assemble(BlockBytes(p), F.EncodeFilter(g), X.EncodeIndex(EntriesOf(p)), EncodeMeta(m))
            && TableOf(r, es) == Table(FileOf(r, es), m, EntriesOf(p), g)
  {
    hide KeyFilter;
    hide F.ByteCount;
    hide EncodeMeta;
    hide F.EncodeFilter;
    hide X.EncodeIndex;
    hide EncodeFooter;
    hide Pack;
    hide BlockBytes;
    hide EntriesOf;
    hide MetaOf;
  }

  // ---- the limits ----

  lemma {:induction false} BytesBound(p: seq<seq<Event>>)
    requires NoneEmpty(p)
    ensures |BlockBytes(p)| == EVENT_SIZE * |Join(p)| + B.OVERHEAD * |p|
  {
    hide B.EncodeBlock;
    if p != [] {
      BytesBound(p[..|p| - 1]);
    }
  }

  /** Four billion events with a target below four gigabytes always fit. */
  lemma {:induction false} FitsWhenSmall(r: Recipe, es: seq<Event>)
    requires F.WellFormed(r.filter) && r.target < TWO_32 && |es| < TWO_32
    ensures Fits(r, es)
  {
    var n, target := |es|, r.target;
    assert n < 0x1_0000_0000 && target < 0x1_0000_0000;
    SmallBlocks(es, target);
    SmallFile(r, es);
    hide *;
    FitsIf(r, es);
  }

  lemma {:induction false} FitsIf(r: Recipe, es: seq<Event>)
    requires F.WellFormed(r.filter) && |Pack(es, r.target)| < TWO_32 && |FileOf(r, es)| < TWO_64
    requires forall b :: b in Pack(es, r.target) ==> EVENT_SIZE * |b| + B.OVERHEAD < TWO_32
    ensures Fits(r, es)
  {
    hide FileOf;
    hide Pack;
    hide B.EncodeBlock;
    hide F.WellFormed;
  }

  lemma {:induction false} SmallBlocks(es: seq<Event>, target: nat)
    requires target < TWO_32 && |es| < TWO_32
    ensures |Pack(es, target)| <= |es|
    ensures forall b :: b in Pack(es, target) ==> EVENT_SIZE * |b| + B.OVERHEAD < TWO_32
  {
    hide B.HasRoom;
    var p := Pack(es, target);
    hide Pack;
    forall b | b in p ensures EVENT_SIZE * |b| + B.OVERHEAD < TWO_32 {
      var i :| 0 <= i < |p| && p[i] == b;
      PackIsGreedy(es, target, i);
    }
    if p != [] {
      PackIsGreedy(es, target, 0);
    }
  }

  lemma {:induction false} SmallFile(r: Recipe, es: seq<Event>)
    requires F.WellFormed(r.filter) && |es| < TWO_32 && |Pack(es, r.target)| <= |es|
    ensures |FileOf(r, es)| < TWO_64
  {
    hide Pack;
    hide KeyFilter;
    hide F.WellFormed;
    hide F.EncodeFilter;
    hide BlockBytes;
    hide FileOf;
    var p := Pack(es, r.target);
    PackJoins(es, r.target);
    BytesBound(p);
    FilterBound(KeyFilter(r.filter, es));
    FileSize(r, es);
  }

  lemma {:induction false} FilterBound(g: F.Filter)
    requires F.WellFormed(g)
    ensures |F.EncodeFilter(g)| <= TWO_32
  {
  }

  lemma {:induction false} FileSize(r: Recipe, es: seq<Event>)
    requires F.WellFormed(r.filter)
    ensures var p := Pack(es, r.target);
            |FileOf(r, es)|
              == |BlockBytes(p)| + |F.EncodeFilter(KeyFilter(r.filter, es))| + 4 + 32 * |p| + META_SIZE + FOOTER_SIZE
  {
    hide Pack;
    hide KeyFilter;
    hide F.WellFormed;
    hide F.EncodeFilter;
    hide BlockBytes;
    hide MetaOf;
    hide EncodeMeta;
    hide EncodeFooter;
  }
}
