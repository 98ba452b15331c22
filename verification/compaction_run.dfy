/** Compaction over files: gathering, merging and the rotation of output tables. */
module CompactionRuns {
  import opened Bytes
  import opened Core
  import opened TableFormat
  import opened Compactions
  import opened Paths
  import opened Wrappers
  import B = Blocks
  import E = Events
  import F = Bloom
  import IO = TableIO
  import S = SSTables
  import X = Indexes

  // ---- splitting into output files ----

  /** 65 bytes each plus five percent. */
  function Estimated(records: nat): nat {
    records * EVENT_SIZE * 105 / 100
  }

  /** The loop's rotation test, made every 1000 records. */
  predicate Rotates(records: nat, target: nat) {
    records % 1000 == 0 && Estimated(records) >= target
  }

  function PerFile(target: nat): (n: nat)
    ensures n > 0
  {
    1000 * if target <= 68250 then 1 else (target + 68249) / 68250
  }

  /** The test looks at every thousandth record and takes 105 percent of 65 bytes for each; the running count first
      passes it at exactly that many records. */
  lemma {:induction false} RotatesAtPerFile(target: nat, n: nat)
    requires 1 <= n <= PerFile(target)
    ensures Rotates(n, target) <==> n % 1000 == 0 && n * 65 * 105 / 100 >= target
    ensures Rotates(n, target) <==> n == PerFile(target)
    ensures PerFile(target) % 1000 == 0
  {
    if n % 1000 == 0 {
      var k := n / 1000;
      assert Estimated(n) == 68250 * k;
    }
  }

  /** Events fill a file up to n records, then open the next. */
  function Chunked(es: seq<Event>, n: nat): (c: seq<seq<Event>>)
    ensures forall i :: 0 <= i < |c| ==> c[i] != []
    ensures c == [] <==> es == []
  {
    if es == [] then [] else AddChunk(Chunked(es[..|es| - 1], n), es[|es| - 1], n)
  }

  function AddChunk(c: seq<seq<Event>>, e: Event, n: nat): seq<seq<Event>> {
    if c == [] || |c[|c| - 1]| == n then c + [[e]] else c[..|c| - 1] + [c[|c| - 1] + [e]]
  }

  lemma {:induction false} AddChunkJoins(c: seq<seq<Event>>, e: Event, n: nat)
    ensures Join(AddChunk(c, e, n)) == Join(c) + [e]
  {
    if c == [] || |c[|c| - 1]| == n {
      assert (c + [[e]])[..|c|] == c;
    } else {
      var d := c[..|c| - 1] + [c[|c| - 1] + [e]];
      assert d[..|d| - 1] == c[..|c| - 1];
    }
  }

  /** All but the last hold exactly n, the last at most n. */
  ghost predicate Sized(c: seq<seq<Event>>, n: nat) {
    && (forall i :: 0 <= i < |c| - 1 ==> |c[i]| == n)
    && (c != [] ==> 1 <= |c[|c| - 1]| <= n)
  }

  lemma {:induction false} AddChunkSized(c: seq<seq<Event>>, e: Event, n: nat)
    requires n > 0 && Sized(c, n)
    ensures Sized(AddChunk(c, e, n), n)
  {
  }

  /** Every output but the last holds exactly n records, and together they are the input in order. */
  lemma {:induction false} ChunkSizes(es: seq<Event>, n: nat)
    requires n > 0
    ensures Join(Chunked(es, n)) == es && Sized(Chunked(es, n), n)
  {
    if es != [] {
      var m := |es| - 1;
      ChunkSizes(es[..m], n);
      AddChunkJoins(Chunked(es[..m], n), es[m], n);
      AddChunkSized(Chunked(es[..m], n), es[m], n);
      assert es[..m] + [es[m]] == es;
      hide Join;
      hide AddChunk;
      hide Sized;
    }
  }

  /** Output files hold ascending, disjoint stretches of keys. */
  lemma {:induction false} ChunksAscend(es: seq<Event>, n: nat, i: nat, j: nat, a: Event, b: Event)
    requires n > 0 && E.Sorted(es) && i < j < |Chunked(es, n)|
    requires a in Chunked(es, n)[i] && b in Chunked(es, n)[j]
    ensures Less(KeyOf(a), KeyOf(b))
  {
    var c := Chunked(es, n);
    ChunkSizes(es, n);
    assert NoneEmpty(c);
    hide Chunked;
    S.BlockBorder(c, j);
    S.SortedSplit(Join(c[..j]), Join(c[j..]));
    InJoin(c[..j], i, a);
    InJoin(c[j..], 0, b);
  }

  lemma {:induction false} InJoin(p: seq<seq<Event>>, i: nat, e: Event)
    requires i < |p| && e in p[i]
    ensures e in Join(p)
  {
    if i < |p| - 1 {
      InJoin(p[..|p| - 1], i, e);
    }
  }

  // ---- files ----

  datatype SSTableInfo = SSTableInfo(path: string, meta: Meta, size: nat)

  /** What a compaction writes with: directory, level, first sequence and the writer's empty filter. */
  datatype Job = Job(dir: string, level: u32, sequence: u64, filter: F.Filter)

  const BLOCK_TARGET: nat := 65536

  /** Sequences are 64 bits wide. */
  function SequenceAt(job: Job, i: nat): u64 {
    (job.sequence + i) % TWO_64
  }

  ghost function RecipeAt(job: Job, i: nat): Recipe {
    Recipe(job.level, SequenceAt(job, i), BLOCK_TARGET, job.filter)
  }

  ghost function PathAt(job: Job, i: nat): string {
    OutputPath(job.dir, job.level, SequenceAt(job, i))
  }

  ghost function InfoAt(job: Job, i: nat, es: seq<Event>): SSTableInfo
    requires F.WellFormed(job.filter)
  {
    SSTableInfo(PathAt(job, i), MetaOf(RecipeAt(job, i), es), |FileOf(RecipeAt(job, i), es)|)
  }

  ghost function Outputs(job: Job, c: seq<seq<Event>>): (s: seq<SSTableInfo>)
    requires F.WellFormed(job.filter)
    ensures |s| == |c| && forall i :: 0 <= i < |s| ==> s[i] == InfoAt(job, i, c[i])
  {
    seq(|c|, i requires 0 <= i < |c| => InfoAt(job, i, c[i]))
  }

  /** The disk after the outputs were created, truncating files of the same name. */
  ghost function Written(files: map<string, seq<byte>>, job: Job, c: seq<seq<Event>>): map<string, seq<byte>>
    requires F.WellFormed(job.filter)
  {
    if c == [] then files
    else
      var n := |c| - 1;
      Written(files, job, c[..n])[PathAt(job, n) := FileOf(RecipeAt(job, n), c[n])]
  }

  class Disk {
    var files: map<string, seq<byte>>

    constructor ()
      ensures files == map[]
    {
      files := map[];
    }
  }

  datatype Stats = Stats(inputFiles: nat, outputFiles: nat, inputBytes: nat, outputBytes: nat, recordsIn: nat,
      recordsOut: nat)

  function TotalSize(infos: seq<SSTableInfo>): nat {
    if infos == [] then 0 else TotalSize(infos[..|infos| - 1]) + infos[|infos| - 1].size
  }

  /** Every listed table counts with its size. */
  lemma {:induction false} TotalSizeAdds(a: seq<SSTableInfo>, x: SSTableInfo, b: seq<SSTableInfo>)
    ensures TotalSize([]) == 0 && TotalSize([x]) == x.size
    ensures TotalSize(a + [x] + b) == TotalSize(a) + x.size + TotalSize(b)
  {
    assert [x][..0] == [];
    if b == [] {
      assert a + [x] + [] == a + [x] && (a + [x])[..|a|] == a;
    } else {
      var n := |b| - 1;
      TotalSizeAdds(a, x, b[..n]);
      assert (a + [x] + b)[..|a| + 1 + n] == a + [x] + b[..n];
    }
  }

  // ---- phase 1 ----

  /** The scan callback: remember the event with its table's sequence. */
  function Collect(q: u64): (seq<Tagged>, Event) -> E.Turn<seq<Tagged>> {
    (s: seq<Tagged>, e: Event) => E.Turn(s + [Tagged(e, q)], true)
  }

  lemma {:induction false} CollectAll(es: seq<Event>, q: u64, s: seq<Tagged>)
    ensures E.Feed(es, s, Collect(q)) == E.Turn(s + TagAll(es, q), true)
    decreases |es|
  {
    if es == [] {
      assert s + TagAll(es, q) == s;
    } else {
      CollectAll(es[1..], q, s + [Tagged(es[0], q)]);
      assert s + [Tagged(es[0], q)] + TagAll(es[1..], q) == s + TagAll(es, q);
    }
  }

  /** The file holds these events, written by some writer with this sequence. */
  ghost predicate Holding(files: map<string, seq<byte>>, info: SSTableInfo, r: Recipe, es: seq<Event>) {
    && info.path in files && S.IsFile(files[info.path], r, es)
    && info.meta == MetaOf(r, es) && info.size == |files[info.path]|
  }

  ghost predicate AllHolding(files: map<string, seq<byte>>, infos: seq<SSTableInfo>, inputs: seq<Input>,
      recipes: seq<Recipe>) {
    && |infos| == |inputs| == |recipes|
    && forall i :: 0 <= i < |infos| ==>
         Holding(files, infos[i], recipes[i], inputs[i].events) && infos[i].meta.sequence == inputs[i].sequence
  }

  /** The table opens, and every block from where a scan of everything starts can be read. */
  ghost predicate Readable(contents: seq<byte>) {
    && OpenTable(contents).Ok?
    && var t := OpenTable(contents).value;
       t.index == [] || exists first: nat :: X.IsStart(t.index, MIN_KEY, first) && BlocksRead(t, first)
  }

  ghost predicate BlocksRead(t: Table, first: nat) {
    forall i: nat :: first <= i < |t.index| ==> S.ReadBlock(t, t.index[i]).Ok?
  }

  /** The table does not open, or a scan of everything meets a block that cannot be read. */
  ghost predicate Broken(contents: seq<byte>) {
    OpenTable(contents).Err?
    || var t := OpenTable(contents).value;
       t.index != [] && exists first: nat :: X.IsStart(t.index, MIN_KEY, first) && !BlocksRead(t, first)
  }

  /** Opens one table and collects all it holds; fails when it cannot be opened or read. */
  method CollectFrom(contents: seq<byte>, path: string, q: u64, before: seq<Tagged>)
      returns (ok: bool, all: seq<Tagged>)
    ensures forall r, es :: S.IsFile(contents, r, es) ==> ok && all == before + TagAll(es, q)
    ensures if ok then Readable(contents) else Broken(contents)
  {
    hide *;
    var reader := new IO.SSTableReader(path, contents, null);
    ok := reader.LoadFooterAndIndex();
    all := before;
    if !ok {
      OnlyForeignFails(contents);
      return;
    }
    EndsDiffer();
    NoCache(reader);
    var scan := reader.ScanRange(MIN_KEY, MAX_KEY, before, Collect(q), map[]);
    ok, all := scan.ok, scan.turn.state;
    Collected(contents, reader.Value(), q, before, scan);
    AllRead(contents, reader.Value(), q, before, scan);
  }

  /** Collecting never stops a scan, so it ends well exactly when every block was read. */
  lemma {:induction false} SpanReads(t: Table, i: nat, q: u64, s: seq<Tagged>)
    requires i <= |t.index|
    ensures S.ScanSpan(t, i, |t.index|, MIN_KEY, MAX_KEY, s, Collect(q)).ok <==> BlocksRead(t, i)
    decreases |t.index| - i
  {
    hide S.ReadBlock;
    hide B.Reached;
    hide Collect;
    if i < |t.index| {
      var r := S.ReadBlock(t, t.index[i]);
      if r.Ok? {
        var es := B.Reached(r.value.events, MIN_KEY, MAX_KEY);
        CollectAll(es, q, s);
        SpanReads(t, i + 1, q, s + TagAll(es, q));
      }
    }
  }

  lemma {:induction false} AllRead(contents: seq<byte>, t: Table, q: u64, before: seq<Tagged>,
      scan: S.Scan<seq<Tagged>>)
    requires OpenTable(contents) == Ok(t) && S.ScanResult(t, MIN_KEY, MAX_KEY, before, Collect(q), scan)
    ensures if scan.ok then Readable(contents) else Broken(contents)
  {
    hide S.ScanSpan;
    hide BlocksRead;
    assert S.MayContain(t, MIN_KEY, MAX_KEY);
    var first: nat, stop: nat :|
      S.Selected(t.index, MIN_KEY, MAX_KEY, first, stop)
        && scan == S.ScanSpan(t, first, stop, MIN_KEY, MAX_KEY, before, Collect(q));
    assert stop == |t.index|;
    SpanReads(t, first, q, before);
    hide *;
    ReadFrom(contents, t, first);
  }

  lemma {:induction false} ReadFrom(contents: seq<byte>, t: Table, first: nat)
    requires OpenTable(contents) == Ok(t) && first <= |t.index|
             && (t.index != [] ==> X.IsStart(t.index, MIN_KEY, first))
    ensures if BlocksRead(t, first) then Readable(contents) else Broken(contents)
  {
    hide OpenTable;
    hide X.IsStart;
    hide S.ReadBlock;
  }

  lemma {:induction false} EndsDiffer()
    ensures MIN_KEY != MAX_KEY
  {
  }

  lemma {:induction false} NoCache(reader: IO.SSTableReader)
    requires reader.cache == null
    ensures reader.Usable(map[])
  {
  }

  lemma {:induction false} OnlyForeignFails(contents: seq<byte>)
    requires OpenTable(contents).Err?
    ensures Broken(contents) && forall r, es :: !S.IsFile(contents, r, es)
  {
    forall r, es | S.IsFile(contents, r, es) ensures false {
      S.FileOpens(contents, r, es);
    }
  }

  lemma {:induction false} Collected(contents: seq<byte>, t: Table, q: u64, before: seq<Tagged>,
      scan: S.Scan<seq<Tagged>>)
    requires OpenTable(contents) == Ok(t) && S.ScanResult(t, MIN_KEY, MAX_KEY, before, Collect(q), scan)
    ensures forall r, es :: S.IsFile(contents, r, es) ==> scan == S.Scan(E.Turn(before + TagAll(es, q), true), true)
  {
    hide *;
    forall r, es | S.IsFile(contents, r, es) ensures scan == S.Scan(E.Turn(before + TagAll(es, q), true), true) {
      S.FileScan(contents, r, es, t, MIN_KEY, MAX_KEY, before, Collect(q), scan);
      E.InRangeFull(es);
      CollectAll(es, q, before);
    }
  }

  ghost predicate AllReadable(files: map<string, seq<byte>>, infos: seq<SSTableInfo>) {
    forall i :: 0 <= i < |infos| ==> infos[i].path in files && Readable(files[infos[i].path])
  }

  ghost predicate SomeBroken(files: map<string, seq<byte>>, infos: seq<SSTableInfo>) {
    exists i :: 0 <= i < |infos| && (infos[i].path in files ==> Broken(files[infos[i].path]))
  }

  /** Collects all inputs; fails exactly when one is missing or cannot be read. */
  method Gather(disk: Disk, infos: seq<SSTableInfo>, ghost inputs: seq<Input>, ghost recipes: seq<Recipe>)
      returns (ok: bool, all: seq<Tagged>)
    ensures AllHolding(disk.files, infos, inputs, recipes) ==> ok && all == Gathered(inputs)
    ensures if ok then AllReadable(disk.files, infos) else SomeBroken(disk.files, infos)
  {
    ok, all := true, [];
    hide Readable;
    hide Broken;
    hide S.IsFile;
    hide MetaOf;
    hide FileOf;
    hide TagAll;
    for i := 0 to |infos|
      invariant ok
      invariant AllHolding(disk.files, infos, inputs, recipes) ==> all == Gathered(inputs[..i])
      invariant forall j :: 0 <= j < i ==> infos[j].path in disk.files && Readable(disk.files[infos[j].path])
    {
      if infos[i].path !in disk.files {
        return false, [];
      }
      ok, all := CollectFrom(disk.files[infos[i].path], infos[i].path, infos[i].meta.sequence, all);
      if AllHolding(disk.files, infos, inputs, recipes) {
        assert Holding(disk.files, infos[i], recipes[i], inputs[i].events);
        assert S.IsFile(disk.files[infos[i].path], recipes[i], inputs[i].events);
        assert inputs[..i + 1][..i] == inputs[..i];
      }
      if !ok {
        return;
      }
    }
    assert |infos| == |inputs| ==> inputs[..|infos|] == inputs;
  }

  // ---- phase 2 ----

  /** One pass over the sorted list, comparing neighbours. */
  method DedupLoop(s: seq<Tagged>) returns (d: seq<Tagged>)
    ensures d == Dedup(s)
  {
    d := [];
    for i := 0 to |s|
      invariant d == Dedup(s[..i])
    {
      assert s[..i + 1][..i] == s[..i];
      if i == 0 || KeyOf(s[i].e) != KeyOf(s[i - 1].e) {
        d := d + [s[i]];
      }
    }
    assert s[..|s|] == s;
  }

  method RemoveTombstones(s: seq<Tagged>) returns (d: seq<Tagged>)
    ensures EventsOf(d) == DropTombstones(EventsOf(s))
  {
    d := [];
    for i := 0 to |s|
      invariant EventsOf(d) == DropTombstones(EventsOf(s)[..i])
    {
      assert EventsOf(s)[..i + 1][..i] == EventsOf(s)[..i];
      if s[i].e.kind != TOMBSTONE {
        assert EventsOf(d + [s[i]]) == EventsOf(d) + [s[i].e];
        d := d + [s[i]];
      }
    }
    assert EventsOf(s)[..|s|] == EventsOf(s);
  }

  method Merge(gathered: seq<Tagged>, level: nat) returns (all: seq<Tagged>)
    ensures forall inputs :: gathered == Gathered(inputs) ==> EventsOf(all) == Merged(inputs, level)
  {
    all := StableSort(gathered);
    all := DedupLoop(all);
    hide StableSort;
    hide Dedup;
    if level >= MAX_LEVELS - 1 {
      all := RemoveTombstones(all);
    }
  }

  // ---- phase 3 ----

  lemma {:induction false} OneMoreOutput(files: map<string, seq<byte>>, job: Job, c: seq<seq<Event>>, b: seq<Event>)
    requires F.WellFormed(job.filter)
    ensures var r := RecipeAt(job, |c|);
            Outputs(job, c + [b]) == Outputs(job, c) + [SSTableInfo(PathAt(job, |c|), MetaOf(r, b), |FileOf(r, b)|)]
    ensures Written(files, job, c + [b]) == Written(files, job, c)[PathAt(job, |c|) := FileOf(RecipeAt(job, |c|), b)]
  {
    hide FileOf;
    hide MetaOf;
    hide OutputPath;
    hide F.WellFormed;
    assert (c + [b])[..|c|] == c;
    assert Outputs(job, c + [b]) == Outputs(job, c) + [InfoAt(job, |c|, b)];
  }

  /** Closes the current output: its bytes reach the disk under its name. */
  method FinishOutput(disk: Disk, writer: IO.SSTableWriter, path: string) returns (info: SSTableInfo)
    requires writer.Valid()
    modifies disk, writer, writer.builder, writer.index
    ensures F.WellFormed(writer.recipe.filter)
    ensures disk.files == old(disk.files)[path := FileOf(writer.recipe, old(writer.added))]
    ensures var r, es := writer.recipe, old(writer.added); info == SSTableInfo(path, MetaOf(r, es), |FileOf(r, es)|)
  {
    hide *;
    RecipeFits(writer);
    var meta, size := writer.Finish();
    disk.files := disk.files[path := writer.file];
    info := SSTableInfo(path, meta, size);
  }

  /** In terms of the job: one more chunk is on disk and listed. */
  method CloseOutput(disk: Disk, writer: IO.SSTableWriter, path: string, outputs: seq<SSTableInfo>, ghost outSeq: u64,
                     ghost files0: map<string, seq<byte>>, ghost job: Job, ghost done: seq<seq<Event>>)
      returns (more: seq<SSTableInfo>)
    requires F.WellFormed(job.filter) && writer.Valid()
    requires writer.recipe == RecipeAt(job, |done|) && Named(path, outSeq, job, |done|)
    requires OnDisk(disk.files, outputs, files0, job, done)
    modifies disk, writer, writer.builder, writer.index
    ensures OnDisk(disk.files, more, files0, job, done + [old(writer.added)])
  {
    assert path == PathAt(job, |done|);
    assert outputs == Outputs(job, done) && disk.files == Written(files0, job, done);
    hide Outputs;
    hide Written;
    hide PathAt;
    hide RecipeAt;
    hide FileOf;
    hide MetaOf;
    hide F.WellFormed;
    OneMoreOutput(files0, job, done, writer.added);
    var info := FinishOutput(disk, writer, path);
    more := outputs + [info];
  }

  lemma {:induction false} RecipeFits(writer: IO.SSTableWriter)
    requires writer.Valid()
    ensures F.WellFormed(writer.recipe.filter)
  {
  }

  /** These chunks are on disk and listed. */
  ghost predicate OnDisk(files: map<string, seq<byte>>, outputs: seq<SSTableInfo>, files0: map<string, seq<byte>>,
      job: Job, done: seq<seq<Event>>)
    requires F.WellFormed(job.filter)
  {
    outputs == Outputs(job, done) && files == Written(files0, job, done)
  }

  /** Output i is being written under its name, and the next one gets the next sequence. */
  ghost predicate Named(path: string, outSeq: u64, job: Job, i: nat) {
    path == PathAt(job, i) && outSeq == SequenceAt(job, i + 1)
  }

  /** The last chunk can take no more. */
  ghost predicate Full(c: seq<seq<Event>>, n: nat) {
    c == [] || |c[|c| - 1]| == n
  }

  /** Where the loop stands: the finished chunks and the open one, if any. */
  ghost predicate Standing(c: seq<seq<Event>>, done: seq<seq<Event>>, last: seq<Event>, open: bool, n: nat) {
    if open then c == done + [last] && 0 < |last| < n else c == done && last == [] && Full(done, n)
  }

  lemma {:induction false} NextChunk(all: seq<Event>, i: nat, n: nat, done: seq<seq<Event>>, last: seq<Event>,
      open: bool)
    requires i < |all| && n > 0 && Standing(Chunked(all[..i], n), done, last, open, n)
    ensures Chunked(all[..i + 1], n) == done + [last + [all[i]]] && |last| + 1 <= n
    ensures |last| + 1 < n ==> Standing(Chunked(all[..i + 1], n), done, last + [all[i]], true, n)
    ensures |last| + 1 == n ==> Standing(Chunked(all[..i + 1], n), done + [last + [all[i]]], [], false, n)
  {
    assert all[..i + 1][..i] == all[..i];
    var c := Chunked(all[..i], n);
    assert Chunked(all[..i + 1], n) == AddChunk(c, all[i], n);
    hide Chunked;
    assert [] + [all[i]] == [all[i]];
    if open {
      assert c[..|c| - 1] == done;
    }
  }

  method OpenOutput(dir: string, level: u32, outSeq: u64, hashes: u32, bits: u32, ghost job: Job, ghost i: nat)
      returns (writer: IO.SSTableWriter, path: string, next: u64)
    requires bits <= TWO_32 - 8 && job == Job(dir, level, job.sequence, F.Empty(hashes, bits))
    requires outSeq == SequenceAt(job, i)
    ensures writer.Valid() && writer.added == [] && writer.recipe == RecipeAt(job, i)
    ensures fresh(writer) && fresh(writer.builder) && fresh(writer.index) && fresh(writer.filter)
    ensures Named(path, next, job, i)
  {
    hide F.Empty;
    hide OutputPath;
    hide PathAt;
    hide RecipeAt;
    hide SequenceAt;
    path := OutputPath(dir, level, outSeq);
    writer := new IO.SSTableWriter(level, outSeq, BLOCK_TARGET, hashes, bits);
    next := (outSeq + 1) % 0x1_0000_0000_0000_0000;
    NextName(job, i, outSeq);
  }

  /** What the loop holds in its hands: the finished outputs, and the open one with its name and rows. */
  ghost predicate InHand(disk: Disk, writer: IO.SSTableWriter?, path: string, outSeq: u64, records: nat,
      outputs: seq<SSTableInfo>, files0: map<string, seq<byte>>, job: Job, done: seq<seq<Event>>, last: seq<Event>)
    requires F.WellFormed(job.filter)
    reads disk, if writer == null then {} else {writer, writer.builder, writer.index, writer.filter}
  {
    && OnDisk(disk.files, outputs, files0, job, done) && records == |last|
    && (writer == null ==> last == [] && outSeq == SequenceAt(job, |done|))
    && (writer != null ==>
          writer.Valid() && writer.added == last && writer.recipe == RecipeAt(job, |done|)
            && Named(path, outSeq, job, |done|))
  }

  ghost function Parts(writer: IO.SSTableWriter?): set<object> {
    if writer == null then {} else {writer, writer.builder, writer.index, writer.filter}
  }

  /** The next event: into the open output or a new one, which is closed when the running count rotates. */
  method TakeRow(disk: Disk, writer0: IO.SSTableWriter?, path0: string, outSeq0: u64, records0: nat,
      outputs0: seq<SSTableInfo>, all: seq<Event>, i: nat, target: nat, dir: string, level: u32, hashes: u32, bits: u32,
      ghost files0: map<string, seq<byte>>, ghost job: Job, ghost done0: seq<seq<Event>>, ghost last0: seq<Event>)
      returns (writer: IO.SSTableWriter?, path: string, outSeq: u64, records: nat, outputs: seq<SSTableInfo>,
      ghost done: seq<seq<Event>>, ghost last: seq<Event>)
    requires bits <= TWO_32 - 8 && F.WellFormed(job.filter)
             && job == Job(dir, level, job.sequence, F.Empty(hashes, bits))
    requires InHand(disk, writer0, path0, outSeq0, records0, outputs0, files0, job, done0, last0)
    requires i < |all| && Standing(Chunked(all[..i], PerFile(target)), done0, last0, writer0 != null, PerFile(target))
    modifies disk, Parts(writer0)
    ensures InHand(disk, writer, path, outSeq, records, outputs, files0, job, done, last)
    ensures Standing(Chunked(all[..i + 1], PerFile(target)), done, last, writer != null, PerFile(target))
    ensures forall o :: o in Parts(writer) ==> o in Parts(writer0) || fresh(o)
  {
    hide *;
    NextChunk(all, i, PerFile(target), done0, last0, writer0 != null);
    HandParts(disk, writer0, path0, outSeq0, records0, outputs0, files0, job, done0, last0);
    writer, path, outSeq, outputs, done, last := writer0, path0, outSeq0, outputs0, done0, last0 + [all[i]];
    if writer == null {
      writer, path, outSeq := OpenOutput(dir, level, outSeq, hashes, bits, job, |done0|);
    }
    ghost var d: object := disk;
    assert d != writer && d != writer.builder && d != writer.index && d != writer.filter;
    PartsAre(writer);
    writer.Add(all[i]);
    records := records0 + 1;
    RotationTest(target, records);
    if records % 1000 == 0 {
      var estimated := Estimated(records);
      if estimated >= target {
        outputs := CloseOutput(disk, writer, path, outputs, outSeq, files0, job, done0);
        NamedNext(path, outSeq, job, |done0|);
        writer, records, done, last := null, 0, done0 + [last], [];
        PartsAre(writer);
        NoneInHand(disk, path, outSeq, outputs, files0, job, done);
        return;
      }
    }
    StillInHand(disk, writer, path, outSeq, records, outputs, files0, job, done, last);
  }

  lemma {:induction false} PartsAre(writer: IO.SSTableWriter?)
    ensures Parts(writer) == if writer == null then {} else {writer, writer.builder, writer.index, writer.filter}
  {
  }

  lemma {:induction false} HandParts(disk: Disk, writer: IO.SSTableWriter?, path: string, outSeq: u64, records: nat,
      outputs: seq<SSTableInfo>, files0: map<string, seq<byte>>, job: Job, done: seq<seq<Event>>, last: seq<Event>)
    requires F.WellFormed(job.filter)
    requires InHand(disk, writer, path, outSeq, records, outputs, files0, job, done, last)
    ensures OnDisk(disk.files, outputs, files0, job, done) && records == |last|
    ensures writer == null ==> last == [] && outSeq == SequenceAt(job, |done|)
    ensures writer != null ==> writer.Valid() && writer.added == last && writer.recipe == RecipeAt(job, |done|)
    ensures writer != null ==> Named(path, outSeq, job, |done|)
    ensures Parts(writer) == if writer == null then {} else {writer, writer.builder, writer.index, writer.filter}
  {
    hide OnDisk;
    hide Named;
    hide RecipeAt;
    hide SequenceAt;
  }

  lemma {:induction false} NoneInHand(disk: Disk, path: string, outSeq: u64, outputs: seq<SSTableInfo>,
                                      files0: map<string, seq<byte>>, job: Job, done: seq<seq<Event>>)
    requires F.WellFormed(job.filter) && OnDisk(disk.files, outputs, files0, job, done)
    requires outSeq == SequenceAt(job, |done|)
    ensures InHand(disk, null, path, outSeq, 0, outputs, files0, job, done, [])
  {
    hide OnDisk;
    hide SequenceAt;
  }

  lemma {:induction false} StillInHand(disk: Disk, writer: IO.SSTableWriter, path: string, outSeq: u64, records: nat,
      outputs: seq<SSTableInfo>, files0: map<string, seq<byte>>, job: Job, done: seq<seq<Event>>, last: seq<Event>)
    requires F.WellFormed(job.filter) && OnDisk(disk.files, outputs, files0, job, done) && records == |last|
    requires writer.Valid() && writer.added == last && writer.recipe == RecipeAt(job, |done|)
    requires Named(path, outSeq, job, |done|)
    ensures InHand(disk, writer, path, outSeq, records, outputs, files0, job, done, last)
  {
    hide OnDisk;
    hide Named;
    hide RecipeAt;
  }

  /** Closes the output that is still open, if any. */
  method CloseLast(disk: Disk, writer: IO.SSTableWriter?, path: string, outSeq: u64, records: nat,
      outputs0: seq<SSTableInfo>, ghost all: seq<Event>, ghost n: nat, ghost files0: map<string, seq<byte>>,
      ghost job: Job, ghost done: seq<seq<Event>>, ghost last: seq<Event>) returns (outputs: seq<SSTableInfo>)
    requires F.WellFormed(job.filter) && InHand(disk, writer, path, outSeq, records, outputs0, files0, job, done, last)
    requires Standing(Chunked(all[..|all|], n), done, last, writer != null, n)
    modifies disk, Parts(writer)
    ensures outputs == Outputs(job, Chunked(all, n)) && disk.files == Written(files0, job, Chunked(all, n))
  {
    hide *;
    HandParts(disk, writer, path, outSeq, records, outputs0, files0, job, done, last);
    Ended(all, n, done, last, writer != null);
    outputs := outputs0;
    if writer != null {
      outputs := CloseOutput(disk, writer, path, outputs, outSeq, files0, job, done);
    }
    IsOnDisk(disk.files, outputs, files0, job, Chunked(all, n));
  }

  /** Writes the merged events to consecutive files, starting a new one when the running count rotates. */
  method WriteOutputs(disk: Disk, all: seq<Event>, dir: string, level: u32, sequence: u64, target: nat, hashes: u32,
      bits: u32) returns (outputs: seq<SSTableInfo>)
    requires bits <= TWO_32 - 8
    modifies disk
    ensures var job, c := Job(dir, level, sequence, F.Empty(hashes, bits)), Chunked(all, PerFile(target));
            outputs == Outputs(job, c) && disk.files == Written(old(disk.files), job, c)
  {
    ghost var job, n, files0 := Job(dir, level, sequence, F.Empty(hashes, bits)), PerFile(target), disk.files;
    var writer: IO.SSTableWriter? := null;
    var path, outSeq, records := "", sequence, 0;
    outputs := [];
    Nothing(files0, job, all, n);
    hide *;
    ghost var done: seq<seq<Event>>, last: seq<Event> := [], [];
    NoneInHand(disk, path, outSeq, outputs, files0, job, done);
    PartsAre(writer);
    for i := 0 to |all|
      invariant Standing(Chunked(all[..i], n), done, last, writer != null, n)
      invariant InHand(disk, writer, path, outSeq, records, outputs, files0, job, done, last)
      invariant forall o :: o in Parts(writer) ==> fresh(o)
    {
      writer, path, outSeq, records, outputs, done, last :=
        TakeRow(disk, writer, path, outSeq, records, outputs, all, i, target, dir, level, hashes, bits, files0, job,
          done, last);
    }
    outputs := CloseLast(disk, writer, path, outSeq, records, outputs, all, n, files0, job, done, last);
  }

  lemma {:induction false} NamedNext(path: string, outSeq: u64, job: Job, i: nat)
    requires Named(path, outSeq, job, i)
    ensures outSeq == SequenceAt(job, i + 1)
  {
  }

  lemma {:induction false} IsOnDisk(files: map<string, seq<byte>>, outputs: seq<SSTableInfo>,
      files0: map<string, seq<byte>>, job: Job, c: seq<seq<Event>>)
    requires F.WellFormed(job.filter) && OnDisk(files, outputs, files0, job, c)
    ensures outputs == Outputs(job, c) && files == Written(files0, job, c)
  {
  }

  lemma {:induction false} Ended(all: seq<Event>, n: nat, done: seq<seq<Event>>, last: seq<Event>, open: bool)
    requires Standing(Chunked(all[..|all|], n), done, last, open, n)
    ensures Chunked(all, n) == if open then done + [last] else done
  {
    assert all[..|all|] == all;
  }

  lemma {:induction false} NextName(job: Job, i: nat, outSeq: u64)
    requires outSeq == SequenceAt(job, i)
    ensures RecipeAt(job, i) == Recipe(job.level, outSeq, BLOCK_TARGET, job.filter)
    ensures PathAt(job, i) == OutputPath(job.dir, job.level, outSeq)
    ensures (outSeq + 1) % 0x1_0000_0000_0000_0000 == SequenceAt(job, i + 1)
  {
  }

  lemma {:induction false} RotationTest(target: nat, records: nat)
    requires 1 <= records <= PerFile(target)
    ensures records % 1000 == 0 && Estimated(records) >= target <==> records == PerFile(target)
  {
    RotatesAtPerFile(target, records);
  }

  lemma {:induction false} Nothing(files: map<string, seq<byte>>, job: Job, all: seq<Event>, n: nat)
    requires F.WellFormed(job.filter)
    ensures Standing(Chunked(all[..0], n), [], [], false, n) && OnDisk(files, [], files, job, [])
    ensures SequenceAt(job, 0) == job.sequence
  {
  }

  // ---- the whole run ----

  /** What a compaction leaves, when its inputs are the tables they claim to be. */
  ghost predicate Compacted(inputs: seq<Input>, infos: seq<SSTableInfo>, job: Job, target: nat,
      files0: map<string, seq<byte>>, files: map<string, seq<byte>>, outputs: seq<SSTableInfo>, stats: Stats)
    requires F.WellFormed(job.filter)
  {
    var all := Merged(inputs, job.level);
    var c := Chunked(all, PerFile(target));
    && outputs == Outputs(job, c) && files == Written(files0, job, c)
    && stats == Stats(|infos|, |c|, TotalSize(infos), TotalSize(outputs), |Gathered(inputs)|, |all|)
  }

  /** Fails, leaving the disk alone, when an input cannot be read. */
  method Run(disk: Disk, infos: seq<SSTableInfo>, dir: string, level: u32, sequence: u64, target: nat, hashes: u32,
      bits: u32, ghost inputs: seq<Input>, ghost recipes: seq<Recipe>)
      returns (ok: bool, outputs: seq<SSTableInfo>, stats: Stats)
    requires bits <= TWO_32 - 8
    modifies disk
    ensures AllHolding(old(disk.files), infos, inputs, recipes)
        ==> ok && Compacted(inputs, infos, Job(dir, level, sequence, F.Empty(hashes, bits)), target, old(disk.files),
            disk.files, outputs, stats)
    ensures if ok then AllReadable(old(disk.files), infos)
            else SomeBroken(old(disk.files), infos) && disk.files == old(disk.files)
  {
    hide *;
    stats := Stats(0, 0, 0, 0, 0, 0);
    if infos == [] {
      ok, outputs := true, [];
      NoInputs(disk.files);
      NothingToCompact(inputs, recipes, Job(dir, level, sequence, F.Empty(hashes, bits)), target, disk.files);
      return;
    }
    var gathered: seq<Tagged>;
    ok, gathered := Gather(disk, infos, inputs, recipes);
    if !ok {
      outputs := [];
      return;
    }
    var all := Merge(gathered, level);
    var events := EventsOf(all);
    outputs := WriteOutputs(disk, events, dir, level, sequence, target, hashes, bits);
    stats := Stats(|infos|, |outputs|, TotalSize(infos), TotalSize(outputs), |gathered|, |all|);
    if AllHolding(old(disk.files), infos, inputs, recipes) {
      IsCompacted(inputs, infos, Job(dir, level, sequence, F.Empty(hashes, bits)), target, old(disk.files), disk.files,
        outputs, stats);
    }
  }

  lemma {:induction false} NoInputs(files: map<string, seq<byte>>)
    ensures AllReadable(files, [])
  {
  }

  lemma {:induction false} NothingToCompact(inputs: seq<Input>, recipes: seq<Recipe>, job: Job, target: nat,
      files: map<string, seq<byte>>)
    requires F.WellFormed(job.filter)
    ensures AllHolding(files, [], inputs, recipes)
            ==> Compacted(inputs, [], job, target, files, files, [], Stats(0, 0, 0, 0, 0, 0))
  {
    if AllHolding(files, [], inputs, recipes) {
      assert inputs == [];
      assert DropTombstones([]) == [];
    }
  }

  lemma {:induction false} IsCompacted(inputs: seq<Input>, infos: seq<SSTableInfo>, job: Job, target: nat,
      files0: map<string, seq<byte>>, files: map<string, seq<byte>>, outputs: seq<SSTableInfo>, stats: Stats)
    requires F.WellFormed(job.filter)
    requires var all := Merged(inputs, job.level);
             var c := Chunked(all, PerFile(target));
             && outputs == Outputs(job, c) && files == Written(files0, job, c)
             && stats == Stats(|infos|, |outputs|, TotalSize(infos), TotalSize(outputs), |Gathered(inputs)|, |all|)
    ensures Compacted(inputs, infos, job, target, files0, files, outputs, stats)
  {
    hide Merged;
    hide Chunked;
    hide Written;
  }
}
