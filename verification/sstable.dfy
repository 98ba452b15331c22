/** Tables: the writer that packs events into a file and the reader that finds them again. */
module SSTables {
  import opened Bytes
  import opened Core
  import opened TableFormat
  import opened Wrappers
  import B = Blocks
  import E = Events
  import F = Bloom
  import X = Indexes

  // ---- reading ----

  /** The coarse range check, then the filter for a single key. */
  predicate MayContain(t: Table, lo: Key, hi: Key) {
    if Less(hi, t.meta.minKey) || Less(t.meta.maxKey, lo) then false
    else lo == hi && t.filter.m != 0 ==> F.MayContain(t.filter, EncodeKey(lo))
  }

  function ReadBlock(t: Table, entry: X.IndexEntry): Result<B.Block> {
    var r := Pread(t.file, entry.offset, entry.size);
    if r.Err? then Err else B.DecodeBlock(r.value)
  }

  /** How a scan ends: the callback's last turn, and whether every block could be read. */
  datatype Scan<S> = Scan(turn: E.Turn<S>, ok: bool)

  /** Blocks i to stop are read in order until the callback stops or one cannot be read. */
  function ScanSpan<S>(t: Table, i: nat, stop: nat, lo: Key, hi: Key, s: S, f: (S, Event) -> E.Turn<S>): Scan<S>
    requires i <= stop <= |t.index|
    decreases stop - i
  {
    if i == stop then Scan(E.Turn(s, true), true)
    else
      var r := ReadBlock(t, t.index[i]);
      if r.Err? then Scan(E.Turn(s, true), false)
      else
        var u := E.Feed(B.Reached(r.value.events, lo, hi), s, f);
        if u.more then ScanSpan(t, i + 1, stop, lo, hi, u.state, f) else Scan(u, true)
  }

  /** The blocks the index selects. */
  ghost predicate Selected(index: seq<X.IndexEntry>, lo: Key, hi: Key, first: nat, stop: nat) {
    && first <= stop <= |index|
    && (index != [] ==> X.IsStart(index, lo, first))
    && (forall i :: first <= i < stop ==> AtMost(index[i].firstKey, hi))
    && (stop < |index| ==> Less(hi, index[stop].firstKey))
  }

  ghost predicate ScanResult<S>(t: Table, lo: Key, hi: Key, s: S, f: (S, Event) -> E.Turn<S>, r: Scan<S>) {
    if !MayContain(t, lo, hi) then r == Scan(E.Turn(s, true), true)
    else exists first, stop ::
      Selected(t.index, lo, hi, first, stop) && r == ScanSpan(t, first, stop, lo, hi, s, f)
  }

  /** The callback of a point lookup: keep the event, stop. */
  function Capture(s: Option<Event>, e: Event): E.Turn<Option<Event>> {
    E.Turn(Some(e), false)
  }

  ghost predicate GetResult(t: Table, k: Key, r: Scan<Option<Event>>) {
    if t.filter.m != 0 && !F.MayContain(t.filter, EncodeKey(k)) then r == Scan(E.Turn(None, true), true)
    else ScanResult(t, k, k, None, Capture, r)
  }

  // ---- order across blocks ----

  lemma {:induction false} SortedSplit(a: seq<Event>, b: seq<Event>)
    requires E.Sorted(a + b)
    ensures E.Sorted(a) && E.Sorted(b)
    ensures forall x, y :: x in a && y in b ==> Less(KeyOf(x), KeyOf(y))
  {
    forall i, j | 0 <= i < j < |a| ensures Less(KeyOf(a[i]), KeyOf(a[j])) {
      assert (a + b)[i] == a[i] && (a + b)[j] == a[j];
    }
    forall i, j | 0 <= i < j < |b| ensures Less(KeyOf(b[i]), KeyOf(b[j])) {
      assert (a + b)[|a| + i] == b[i] && (a + b)[|a| + j] == b[j];
    }
    forall x, y | x in a && y in b ensures Less(KeyOf(x), KeyOf(y)) {
      var i :| 0 <= i < |a| && a[i] == x;
      var j :| 0 <= j < |b| && b[j] == y;
      assert (a + b)[i] == x && (a + b)[|a| + j] == y;
    }
  }

  /** Splitting a sorted packing before block i: smaller keys in front, the block's first key leads the rest. */
  lemma {:induction false} BlockBorder(p: seq<seq<Event>>, i: nat)
    requires NoneEmpty(p) && E.Sorted(Join(p)) && i < |p|
    ensures Join(p) == Join(p[..i]) + Join(p[i..]) && E.Sorted(p[i])
    ensures Join(p[i..]) == p[i] + Join(p[i + 1..])
    ensures forall e :: e in Join(p[..i]) ==> Less(KeyOf(e), KeyOf(p[i][0]))
    ensures forall e :: e in Join(p[i..]) ==> AtMost(KeyOf(p[i][0]), KeyOf(e))
  {
    var first := p[i][0];
    assert p == p[..i] + p[i..] && p[i..] == [p[i]] + p[i + 1..];
    JoinConcat(p[..i], p[i..]);
    JoinConcat([p[i]], p[i + 1..]);
    assert Join([p[i]]) == p[i] by {
      assert [p[i]][..0] == [];
    }
    var rest := Join(p[i..]);
    SortedSplit(Join(p[..i]), rest);
    SortedSplit(p[i], Join(p[i + 1..]));
    assert rest[0] == first;
    forall e | e in rest ensures AtMost(KeyOf(first), KeyOf(e)) {
      var j :| 0 <= j < |rest| && rest[j] == e;
      assert j > 0 ==> Less(KeyOf(rest[0]), KeyOf(rest[j]));
    }
  }

  // ---- scanning what was written ----

  /** A table over a packing: its file starts with the blocks, its index describes them, and no width overflows. */
  ghost predicate Over(t: Table, p: seq<seq<Event>>) {
    && NoneEmpty(p) && t.index == EntriesOf(p) && BlockBytes(p) <= t.file && |t.file| < TWO_64
    && forall i :: 0 <= i < |p| ==> |B.EncodeBlock(p[i])| < TWO_32
  }

  lemma {:induction false} WrittenOver(r: Recipe, es: seq<Event>)
    requires Fits(r, es)
    ensures Over(TableOf(r, es), Pack(es, r.target))
    ensures Join(Pack(es, r.target)) == es
  {
    WrittenOpens(r, es);
    PackJoins(es, r.target);
    hide FileOf;
    hide Pack;
    hide BlockBytes;
    hide EntriesOf;
    hide B.EncodeBlock;
    hide KeyFilter;
    hide F.WellFormed;
    hide MetaOf;
    hide OpenTable;
  }

  /** Every block is read back as it was packed. */
  lemma {:induction false} BlockReadBack(t: Table, p: seq<seq<Event>>, i: nat)
    requires Over(t, p) && i < |p|
    ensures |t.index| == |p| && t.index[i].firstKey == KeyOf(p[i][0])
    ensures ReadBlock(t, t.index[i]) == Ok(B.Block(p[i], B.Least(p[i]), B.Greatest(p[i])))
  {
    hide *;
    OverIs(t, p);
    IsNonEmpty(p, i);
    var at, n, entry := |BlockBytes(p[..i])|, |B.EncodeBlock(p[i])|, t.index[i];
    EntryOf(p, i);
    BlockLies(p, i);
    Begins(t, p, i, at, n);
    ReadsBack(t, entry, at, n);
    B.BlockRoundTrip(p[i], []);
    assert B.EncodeBlock(p[i]) + [] == B.EncodeBlock(p[i]);
  }

  lemma {:induction false} OverIs(t: Table, p: seq<seq<Event>>)
    requires Over(t, p)
    ensures NoneEmpty(p) && |t.index| == |p| && t.index == EntriesOf(p)
  {
    hide B.EncodeBlock;
  }

  lemma {:induction false} IsNonEmpty(p: seq<seq<Event>>, i: nat)
    requires NoneEmpty(p) && i < |p|
    ensures p[i] != [] && NoneEmpty(p[..i])
  {
  }

  lemma {:induction false} Begins(t: Table, p: seq<seq<Event>>, i: nat, at: nat, n: nat)
    requires Over(t, p) && i < |p| && at + n <= |BlockBytes(p)| && n == |B.EncodeBlock(p[i])|
    ensures at + n <= |t.file| < TWO_64 && n < TWO_32 && |p[i]| < TWO_32
    ensures t.file[at..at + n] == BlockBytes(p)[at..at + n]
  {
    hide B.EncodeBlock;
    hide BlockBytes;
    hide EntriesOf;
    assert |p[i]| < |B.EncodeBlock(p[i])|;
  }

  lemma {:induction false} ReadsBack(t: Table, entry: X.IndexEntry, at: nat, n: nat)
    requires at + n <= |t.file| < TWO_64 && n < TWO_32
    requires entry.offset == at % TWO_64 && entry.size == n % TWO_32
    ensures ReadBlock(t, entry) == B.DecodeBlock(t.file[at..at + n])
  {
    hide B.DecodeBlock;
  }

  lemma {:induction false} SpanFeeds<S>(t: Table, p: seq<seq<Event>>, i: nat, stop: nat, lo: Key, hi: Key, s: S,
      f: (S, Event) -> E.Turn<S>)
    requires Over(t, p) && E.Sorted(Join(p)) && i <= stop <= |p| == |t.index|
    ensures ScanSpan(t, i, stop, lo, hi, s, f) == Scan(E.Feed(E.InRange(Join(p[i..stop]), lo, hi), s, f), true)
    decreases stop - i
  {
    hide *;
    if i == stop {
      SpanEnds(t, i, lo, hi, s, f);
      assert p[i..stop] == [];
      NothingJoined(lo, hi, s, f);
    } else {
      OverIs(t, p);
      IsNonEmpty(p, i);
      BlockReadBack(t, p, i);
      BlockBorder(p, i);
      B.ReachedIsInRange(p[i], lo, hi);
      var u := E.Feed(E.InRange(p[i], lo, hi), s, f);
      SpanSteps(t, i, stop, lo, hi, s, f, p[i]);
      if u.more {
        SpanFeeds(t, p, i + 1, stop, lo, hi, u.state, f);
      }
      assert p[i..stop] == [p[i]] + p[i + 1..stop];
      JoinsFrom(p[i], p[i + 1..stop], lo, hi, s, f);
    }
  }

  lemma {:induction false} SpanEnds<S>(t: Table, i: nat, lo: Key, hi: Key, s: S, f: (S, Event) -> E.Turn<S>)
    requires i <= |t.index|
    ensures ScanSpan(t, i, i, lo, hi, s, f) == Scan(E.Turn(s, true), true)
  {
  }

  lemma {:induction false} NothingJoined<S>(lo: Key, hi: Key, s: S, f: (S, Event) -> E.Turn<S>)
    ensures E.Feed(E.InRange(Join([]), lo, hi), s, f) == E.Turn(s, true)
  {
  }

  lemma {:induction false} SpanSteps<S>(t: Table, i: nat, stop: nat, lo: Key, hi: Key, s: S, f: (S, Event) -> E.Turn<S>,
      b: seq<Event>)
    requires i < stop <= |t.index| && ReadBlock(t, t.index[i]).Ok? && ReadBlock(t, t.index[i]).value.events == b
    ensures ScanSpan(t, i, stop, lo, hi, s, f)
         == var u := E.Feed(B.Reached(b, lo, hi), s, f);
            if u.more then ScanSpan(t, i + 1, stop, lo, hi, u.state, f) else Scan(u, true)
  {
    hide ReadBlock;
    hide E.Feed;
    hide B.Reached;
  }

  lemma {:induction false} JoinsFrom<S>(b: seq<Event>, rest: seq<seq<Event>>, lo: Key, hi: Key, s: S,
      f: (S, Event) -> E.Turn<S>)
    ensures E.Feed(E.InRange(Join([b] + rest), lo, hi), s, f)
         == var u := E.Feed(E.InRange(b, lo, hi), s, f);
            if u.more then E.Feed(E.InRange(Join(rest), lo, hi), u.state, f) else u
  {
    JoinConcat([b], rest);
    assert Join([b]) == b by {
      assert [b][..0] == [];
    }
    hide *;
    E.InRangeConcat(b, Join(rest), lo, hi);
    E.FeedConcat(E.InRange(b, lo, hi), E.InRange(Join(rest), lo, hi), s, f);
  }

  lemma {:induction false} NoneBefore(p: seq<seq<Event>>, lo: Key, hi: Key, first: nat)
    requires NoneEmpty(p) && E.Sorted(Join(p)) && first < |p| && (first == 0 || AtMost(KeyOf(p[first][0]), lo))
    ensures E.InRange(Join(p[..first]), lo, hi) == []
  {
    var a := Join(p[..first]);
    if first > 0 {
      BlockBorder(p, first);
      forall i | 0 <= i < |a| ensures !E.Within(a[i], lo, hi) {
        assert a[i] in a;
      }
    }
    E.InRangeNone(a, lo, hi);
  }

  lemma {:induction false} NoneAfter(p: seq<seq<Event>>, lo: Key, hi: Key, stop: nat)
    requires NoneEmpty(p) && E.Sorted(Join(p)) && stop <= |p| && (stop == |p| || Less(hi, KeyOf(p[stop][0])))
    ensures E.InRange(Join(p[stop..]), lo, hi) == []
  {
    var c := Join(p[stop..]);
    if stop < |p| {
      BlockBorder(p, stop);
      forall i | 0 <= i < |c| ensures !E.Within(c[i], lo, hi) {
        assert c[i] in c;
      }
    }
    E.InRangeNone(c, lo, hi);
  }

  /** The selected blocks hold the whole range. */
  lemma {:induction false} SelectedHoldRange(p: seq<seq<Event>>, index: seq<X.IndexEntry>, lo: Key, hi: Key, first: nat,
      stop: nat)
    requires NoneEmpty(p) && E.Sorted(Join(p)) && |index| == |p|
    requires forall i :: 0 <= i < |p| ==> index[i].firstKey == KeyOf(p[i][0])
    requires Selected(index, lo, hi, first, stop)
    ensures E.InRange(Join(p), lo, hi) == E.InRange(Join(p[first..stop]), lo, hi)
  {
    hide E.Sorted;
    hide E.InRange;
    hide Join;
    if p != [] {
      NoneBefore(p, lo, hi, first);
      NoneAfter(p, lo, hi, stop);
      assert p == p[..first] + (p[first..stop] + p[stop..]);
      JoinConcat(p[..first], p[first..stop] + p[stop..]);
      JoinConcat(p[first..stop], p[stop..]);
      E.InRangeConcat(Join(p[..first]), Join(p[first..stop]) + Join(p[stop..]), lo, hi);
      E.InRangeConcat(Join(p[first..stop]), Join(p[stop..]), lo, hi);
    } else {
      assert p[first..stop] == p;
    }
  }

  lemma {:induction false} FilterHas(f: F.Filter, es: seq<Event>, e: Event)
    requires F.WellFormed(f) && e in es
    ensures F.MayContain(KeyFilter(f, es), EncodeKey(KeyOf(e)))
  {
    var n := |es| - 1;
    hide F.MayContain;
    hide F.WithKey;
    hide EncodeKey;
    F.NoFalseNegatives(KeyFilter(f, es[..n]), EncodeKey(KeyOf(es[n])), EncodeKey(KeyOf(e)));
    if e != es[n] {
      assert es == es[..n] + [es[n]];
      FilterHas(f, es[..n], e);
    }
  }

  /** Whatever the blocks hold, damaged or not, a scan reads none of them exactly when the range misses the key bounds,
      or is a single key of which the filter lacks a bit. */
  lemma {:induction false} RefusedUnread<S>(t: Table, lo: Key, hi: Key, s: S, f: (S, Event) -> E.Turn<S>, r: Scan<S>)
    requires ScanResult(t, lo, hi, s, f, r)
    ensures var refused := Less(hi, t.meta.minKey) || Less(t.meta.maxKey, lo)
              || (lo == hi && t.filter.m != 0
                  && exists i: nat ::
                       i < t.filter.k && !F.Bit(t.filter.bits, F.Position(EncodeKey(lo), i, t.filter.m)));
            if refused then r == Scan(E.Turn(s, true), true)
            else exists first, stop ::
              Selected(t.index, lo, hi, first, stop) && r == ScanSpan(t, first, stop, lo, hi, s, f)
  {
    if lo == hi && t.filter.m != 0 {
      F.Probed(t.filter, EncodeKey(lo));
    }
    hide F.MayContain;
    hide F.Bit;
    hide F.Position;
    hide EncodeKey;
    hide Selected;
    hide ScanSpan;
  }

  /** A table is only ruled out when it holds nothing in range. */
  lemma {:induction false} RuledOut(r: Recipe, es: seq<Event>, lo: Key, hi: Key)
    requires F.WellFormed(r.filter) && E.Sorted(es) && !MayContain(TableOf(r, es), lo, hi)
    ensures E.InRange(es, lo, hi) == []
  {
    hide *;
    forall i | 0 <= i < |es| ensures !E.Within(es[i], lo, hi) {
      OutsideOf(r, es, lo, hi, i);
    }
    E.InRangeNone(es, lo, hi);
  }

  lemma {:induction false} OutsideOf(r: Recipe, es: seq<Event>, lo: Key, hi: Key, i: nat)
    requires F.WellFormed(r.filter) && E.Sorted(es) && !MayContain(TableOf(r, es), lo, hi) && i < |es|
    ensures !E.Within(es[i], lo, hi)
  {
    hide F.MayContain;
    hide FileOf;
    hide KeyFilter;
    hide EncodeKey;
    assert i > 0 ==> Less(KeyOf(es[0]), KeyOf(es[i]));
    assert i < |es| - 1 ==> Less(KeyOf(es[i]), KeyOf(es[|es| - 1]));
    if lo == hi == KeyOf(es[i]) {
      FilterHas(r.filter, es, es[i]);
    }
    LessTotal(lo, KeyOf(es[i]));
  }

  /** Scanning a written table feeds the callback exactly the events in range, in order, until it stops. */
  lemma {:induction false} ScanIsInRange<S>(r: Recipe, es: seq<Event>, lo: Key, hi: Key, s: S,
      f: (S, Event) -> E.Turn<S>, result: Scan<S>)
    requires Fits(r, es) && E.Sorted(es) && ScanResult(TableOf(r, es), lo, hi, s, f, result)
    ensures result == Scan(E.Feed(E.InRange(es, lo, hi), s, f), true)
  {
    var t, p := TableOf(r, es), Pack(es, r.target);
    WrittenOver(r, es);
    assert F.WellFormed(r.filter);
    if !MayContain(t, lo, hi) {
      hide *;
      RuledOut(r, es, lo, hi);
      NothingScanned(t, lo, hi, s, f, result);
    } else {
      hide *;
      SpanScanned(t, p, lo, hi, s, f, result);
    }
  }

  /** The bytes of a table that holds exactly these events. */
  ghost predicate IsFile(contents: seq<byte>, r: Recipe, es: seq<Event>) {
    Fits(r, es) && E.Sorted(es) && contents == FileOf(r, es)
  }

  lemma {:induction false} FileOpens(contents: seq<byte>, r: Recipe, es: seq<Event>)
    requires IsFile(contents, r, es)
    ensures F.WellFormed(r.filter) && OpenTable(contents) == Ok(TableOf(r, es))
  {
    WrittenOpens(r, es);
  }

  /** Opening a written file and scanning it. */
  lemma {:induction false} FileScan<S>(contents: seq<byte>, r: Recipe, es: seq<Event>, t: Table, lo: Key, hi: Key, s: S,
      f: (S, Event) -> E.Turn<S>, result: Scan<S>)
    requires IsFile(contents, r, es) && OpenTable(contents) == Ok(t) && ScanResult(t, lo, hi, s, f, result)
    ensures result == Scan(E.Feed(E.InRange(es, lo, hi), s, f), true)
  {
    FileOpens(contents, r, es);
    ScanIsInRange(r, es, lo, hi, s, f, result);
  }

  lemma {:induction false} SpanScanned<S>(t: Table, p: seq<seq<Event>>, lo: Key, hi: Key, s: S,
      f: (S, Event) -> E.Turn<S>, result: Scan<S>)
    requires Over(t, p) && E.Sorted(Join(p)) && MayContain(t, lo, hi) && ScanResult(t, lo, hi, s, f, result)
    ensures result == Scan(E.Feed(E.InRange(Join(p), lo, hi), s, f), true)
  {
    hide *;
    OverIs(t, p);
    var first, stop := Chosen(t, lo, hi, s, f, result);
    forall i | 0 <= i < |p| ensures p[i] != [] && t.index[i].firstKey == KeyOf(p[i][0]) {
      IsNonEmpty(p, i);
      BlockReadBack(t, p, i);
    }
    SelectedHoldRange(p, t.index, lo, hi, first, stop);
    SpanFeeds(t, p, first, stop, lo, hi, s, f);
  }

  lemma {:induction false} Chosen<S>(t: Table, lo: Key, hi: Key, s: S, f: (S, Event) -> E.Turn<S>, r: Scan<S>)
      returns (first: nat, stop: nat)
    requires MayContain(t, lo, hi) && ScanResult(t, lo, hi, s, f, r)
    ensures Selected(t.index, lo, hi, first, stop) && first <= stop <= |t.index|
    ensures r == ScanSpan(t, first, stop, lo, hi, s, f)
  {
    hide MayContain;
    first, stop :| Selected(t.index, lo, hi, first, stop) && r == ScanSpan(t, first, stop, lo, hi, s, f);
  }

  lemma {:induction false} NothingScanned<S>(t: Table, lo: Key, hi: Key, s: S, f: (S, Event) -> E.Turn<S>, r: Scan<S>)
    requires !MayContain(t, lo, hi) && ScanResult(t, lo, hi, s, f, r)
    ensures r == Scan(E.Feed([], s, f), true)
  {
  }

  /** Of the blocks a scan selects, all but the first begin inside the range. */
  lemma {:induction false} OneWastedBlock(r: Recipe, es: seq<Event>, lo: Key, hi: Key, first: nat, stop: nat, i: nat)
    requires Fits(r, es) && E.Sorted(es) && Selected(TableOf(r, es).index, lo, hi, first, stop)
    requires first < i < stop
    ensures i < |Pack(es, r.target)| && E.Within(Pack(es, r.target)[i][0], lo, hi)
  {
    WrittenOver(r, es);
    hide *;
    SpanBegins(TableOf(r, es), Pack(es, r.target), lo, hi, first, stop, i);
  }

  lemma {:induction false} SpanBegins(t: Table, p: seq<seq<Event>>, lo: Key, hi: Key, first: nat, stop: nat, i: nat)
    requires Over(t, p) && E.Sorted(Join(p)) && Selected(t.index, lo, hi, first, stop) && first < i < stop
    ensures i < |p| && p[i] != [] && E.Within(p[i][0], lo, hi)
  {
    hide *;
    OverIs(t, p);
    SelectedBounds(t.index, lo, hi, first, stop);
    LaterBegins(t, p, first + 1, i);
    BeginsInside(t.index, lo, hi, first, stop, i, p[i][0]);
  }

  lemma {:induction false} SelectedBounds(index: seq<X.IndexEntry>, lo: Key, hi: Key, first: nat, stop: nat)
    requires Selected(index, lo, hi, first, stop)
    ensures first <= stop <= |index|
  {
  }

  lemma {:induction false} LaterBegins(t: Table, p: seq<seq<Event>>, a: nat, i: nat)
    requires Over(t, p) && |t.index| == |p| && E.Sorted(Join(p)) && a <= i < |p|
    ensures p[i] != [] && t.index[i].firstKey == KeyOf(p[i][0]) && AtMost(t.index[a].firstKey, KeyOf(p[i][0]))
  {
    hide *;
    OverIs(t, p);
    IsNonEmpty(p, i);
    BlockReadBack(t, p, a);
    BlockReadBack(t, p, i);
    BlockBorder(p, a);
    FirstIn(p, a, i);
  }

  lemma {:induction false} FirstIn(p: seq<seq<Event>>, a: nat, i: nat)
    requires NoneEmpty(p) && a <= i < |p|
    ensures p[i][0] in Join(p[a..])
  {
    assert p[a..] == p[a..i] + ([p[i]] + p[i + 1..]);
    JoinConcat(p[a..i], [p[i]] + p[i + 1..]);
    JoinConcat([p[i]], p[i + 1..]);
    assert [p[i]][..0] == [];
    assert p[i][0] in p[i];
  }

  lemma {:induction false} BeginsInside(index: seq<X.IndexEntry>, lo: Key, hi: Key, first: nat, stop: nat, i: nat,
      e: Event)
    requires Selected(index, lo, hi, first, stop) && first < i < stop
    requires KeyOf(e) == index[i].firstKey && AtMost(index[first + 1].firstKey, KeyOf(e))
    ensures E.Within(e, lo, hi)
  {
  }

  /** A point lookup finds exactly the written event of that key. */
  lemma {:induction false} GetIsExact(r: Recipe, es: seq<Event>, k: Key, result: Scan<Option<Event>>)
    requires Fits(r, es) && E.Sorted(es) && GetResult(TableOf(r, es), k, result)
    ensures result.ok
    ensures forall e :: result.turn.state == Some(e) <==> e in es && KeyOf(e) == k
  {
    var t := TableOf(r, es);
    assert F.WellFormed(r.filter) && t.filter == KeyFilter(r.filter, es);
    if t.filter.m != 0 && !F.MayContain(t.filter, EncodeKey(k)) {
      hide *;
      NothingGot(t, k, result);
      forall e | e in es ensures KeyOf(e) != k {
        FilterHas(r.filter, es, e);
      }
    } else {
      assert ScanResult(t, k, k, None, Capture, result);
      hide *;
      ScanIsInRange(r, es, k, k, None, Capture, result);
      CaptureExact(es, k);
    }
  }

  lemma {:induction false} CaptureExact(es: seq<Event>, k: Key)
    requires E.Sorted(es)
    ensures forall e :: E.Feed(E.InRange(es, k, k), None, Capture).state == Some(e) <==> e in es && KeyOf(e) == k
  {
    var found := E.InRange(es, k, k);
    forall e ensures e in found <==> e in es && KeyOf(e) == k {
      E.InRangeMember(es, k, k, e);
      LessTotal(KeyOf(e), k);
    }
    CaptureFirst(found);
    AtMostOne(es, found, k);
  }

  lemma {:induction false} NothingGot(t: Table, k: Key, r: Scan<Option<Event>>)
    requires t.filter.m != 0 && !F.MayContain(t.filter, EncodeKey(k)) && GetResult(t, k, r)
    ensures r == Scan(E.Turn(None, true), true)
  {
  }

  lemma {:induction false} CaptureFirst(es: seq<Event>)
    ensures E.Feed(es, None, Capture).state == if es == [] then None else Some(es[0])
  {
  }

  lemma {:induction false} AtMostOne(es: seq<Event>, found: seq<Event>, k: Key)
    requires E.Sorted(es) && forall e :: e in found <==> e in es && KeyOf(e) == k
    ensures forall e, d :: e in found && d in found ==> e == d
  {
    forall i, j | 0 <= i < j < |es| ensures KeyOf(es[i]) != KeyOf(es[j]) {
      LessTotal(KeyOf(es[i]), KeyOf(es[j]));
    }
    hide E.Sorted;
    forall e, d | e in found && d in found ensures e == d {
      var i :| 0 <= i < |es| && es[i] == e;
      var j :| 0 <= j < |es| && es[j] == d;
      assert !(i < j) && !(j < i);
    }
  }
}
