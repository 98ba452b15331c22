/** Tables on disk: what each file holds, how files are named, and what one more table changes. */
module DBTables {
  import opened Bytes
  import opened Core
  import opened Compactions
  import opened DBModel
  import opened Paths
  import opened TableFormat
  import C = Caches
  import E = Events
  import F = Bloom
  import IO = TableIO
  import R = CompactionRuns
  import S = SSTables

  // ---- what the files hold ----

  /** The recipe and the events of a file that was written. */
  datatype Stored = Stored(r: Recipe, es: seq<Event>)

  ghost predicate AllFit(stored: map<string, Stored>) {
    forall p :: p in stored ==> Fits(stored[p].r, stored[p].es) && E.Sorted(stored[p].es)
  }

  ghost function StoreOf(stored: map<string, Stored>): map<string, Table>
    requires AllFit(stored)
  {
    map p | p in stored :: TableOf(stored[p].r, stored[p].es)
  }

  ghost predicate LevelFine(files: map<string, seq<byte>>, infos: seq<R.SSTableInfo>, stored: map<string, Stored>) {
    forall i :: 0 <= i < |infos| ==>
      infos[i].path in stored && R.Holding(files, infos[i], stored[infos[i].path].r, stored[infos[i].path].es)
  }

  ghost function ViewOf(infos: seq<R.SSTableInfo>, stored: map<string, Stored>): (l: seq<Input>)
    requires forall i :: 0 <= i < |infos| ==> infos[i].path in stored
    ensures |l| == |infos|
    ensures forall i :: 0 <= i < |l| ==> l[i] == Input(infos[i].meta.sequence, stored[infos[i].path].es)
  {
    seq(|infos|, i requires 0 <= i < |infos| => Input(infos[i].meta.sequence, stored[infos[i].path].es))
  }

  /** Level 0 files are named after flush sequences already spent, level 1 files after compaction outputs. */
  ghost predicate NamesFine(l0: seq<R.SSTableInfo>, l1: seq<R.SSTableInfo>, stored: map<string, Stored>, sstSeq: u64) {
    && (forall i :: 0 <= i < |l0| ==> l0[i].path == FlushPath(l0[i].meta.sequence))
    && (forall i :: 0 <= i < |l1| ==> l1[i].path == OutputPath("l1", 1, l1[i].meta.sequence))
    && (forall p :: p in stored ==> Spent(p, sstSeq) || InLevel(p, l1))
  }

  ghost predicate DistinctPaths(l: seq<R.SSTableInfo>) {
    forall i, j :: 0 <= i < j < |l| ==> l[i].path != l[j].path
  }

  /** The directories hold the listed tables, each under a name of its own, and nothing else. */
  ghost predicate Tidy(files: map<string, seq<byte>>, l0: seq<R.SSTableInfo>, l1: seq<R.SSTableInfo>) {
    DistinctPaths(l0) && DistinctPaths(l1) && forall p :: p in files ==> InLevel(p, l0) || InLevel(p, l1)
  }

  ghost predicate Spent(p: string, sstSeq: u64) {
    exists q: nat :: q < sstSeq && p == FlushPath(q)
  }

  ghost predicate InLevel(p: string, l1: seq<R.SSTableInfo>) {
    exists i :: 0 <= i < |l1| && l1[i].path == p
  }

  lemma {:induction false} NewFlushName(l0: seq<R.SSTableInfo>, l1: seq<R.SSTableInfo>, stored: map<string, Stored>,
      sstSeq: u64)
    requires NamesFine(l0, l1, stored, sstSeq)
    ensures FlushPath(sstSeq) !in stored
  {
    var p := FlushPath(sstSeq);
    if p in stored {
      if q: nat :| q < sstSeq && p == FlushPath(q) {
        FlushPathInjective(q, sstSeq);
      } else {
        var i :| 0 <= i < |l1| && l1[i].path == p;
        FlushAndOutputDiffer(sstSeq, 1, l1[i].meta.sequence);
      }
    }
  }

  lemma {:induction false} StoredRegular(r: Recipe, es: seq<Event>)
    requires Fits(r, es)
    ensures IO.Regular(TableOf(r, es))
  {
    assert F.WellFormed(r.filter);
    hide *;
    S.WrittenOver(r, es);
    IO.WrittenRegular(TableOf(r, es), Pack(es, r.target));
  }

  // ---- writing a table ----

  method WriteTable(level: u32, seqNo: u64, target: nat, hashes: u32, bits: u32, es: seq<Event>)
      returns (contents: seq<byte>, meta: Meta)
    requires bits <= TWO_32 - 8
    ensures var r := Recipe(level, seqNo, target, F.Empty(hashes, bits));
            contents == FileOf(r, es) && meta == MetaOf(r, es)
  {
    hide *;
    var writer := new IO.SSTableWriter(level, seqNo, target, hashes, bits);
    for i := 0 to |es|
      invariant writer.Valid() && writer.added == es[..i]
      invariant fresh(writer) && fresh(writer.builder) && fresh(writer.index) && fresh(writer.filter)
    {
      writer.Add(es[i]);
    }
    var size;
    meta, size := writer.Finish();
    contents := writer.file;
    assert es[..|es|] == es;
  }

  lemma {:induction false} Flushable(t: Stored)
    requires F.WellFormed(t.r.filter) && t.r.target < TWO_32 && |t.es| < TWO_32 && E.Sorted(t.es)
    ensures Fits(t.r, t.es) && S.IsFile(FileOf(t.r, t.es), t.r, t.es)
  {
    FitsWhenSmall(t.r, t.es);
  }

  /** The levels and their names, as a value. */
  ghost predicate LevelsFine(files: map<string, seq<byte>>, levels: seq<seq<R.SSTableInfo>>,
      stored: map<string, Stored>, sstSeq: u64) {
    && |levels| == 4 && levels[2] == [] && levels[3] == []
    && AllFit(stored)
    && LevelFine(files, levels[0], stored) && LevelFine(files, levels[1], stored)
    && NamesFine(levels[0], levels[1], stored, sstSeq) && Tidy(files, levels[0], levels[1])
  }

  lemma {:induction false} BothFine(files: map<string, seq<byte>>, a: seq<R.SSTableInfo>, b: seq<R.SSTableInfo>,
      stored: map<string, Stored>)
    requires LevelFine(files, a, stored) && LevelFine(files, b, stored)
    ensures LevelFine(files, a + b, stored)
    ensures forall j :: 0 <= j < |a| ==> a[j].path in stored
    ensures forall j :: 0 <= j < |b| ==> b[j].path in stored
  {
    hide R.Holding;
  }

  lemma {:induction false} SourcesBehind(m: State, a: seq<R.SSTableInfo>, b: seq<R.SSTableInfo>,
      stored: map<string, Stored>)
    requires forall j :: 0 <= j < |a| ==> a[j].path in stored
    requires forall j :: 0 <= j < |b| ==> b[j].path in stored
    requires m.l0 == ViewOf(a, stored) && m.l1 == ViewOf(b, stored)
    ensures var sources := Sources(m);
            && [m.active] + m.imms <= sources && |sources| == 1 + |m.imms| + |a + b| && sources[0] == m.active
            && forall j :: 0 <= j < |a + b| ==>
                 (a + b)[j].path in stored && stored[(a + b)[j].path].es == sources[1 + |m.imms| + j]
  {
    var sources, front := Sources(m), [m.active] + m.imms;
    assert sources == front + (Runs(m.l0) + Runs(m.l1));
    forall j | 0 <= j < |a + b|
      ensures (a + b)[j].path in stored && stored[(a + b)[j].path].es == sources[1 + |m.imms| + j]
    {
      assert sources[|front| + j] == (Runs(m.l0) + Runs(m.l1))[j];
    }
  }

  lemma {:induction false} HeldParts(files: map<string, seq<byte>>, info: R.SSTableInfo, t: Stored)
    requires R.Holding(files, info, t.r, t.es)
    ensures info.path in files && S.IsFile(files[info.path], t.r, t.es) && info.meta == MetaOf(t.r, t.es)
    ensures Fits(t.r, t.es) && E.Sorted(t.es)
  {
  }

  lemma {:induction false} FineAt(files: map<string, seq<byte>>, infos: seq<R.SSTableInfo>, stored: map<string, Stored>,
      j: nat)
    requires LevelFine(files, infos, stored) && j < |infos|
    ensures infos[j].path in stored && R.Holding(files, infos[j], stored[infos[j].path].r, stored[infos[j].path].es)
  {
  }

  // ---- adding a table ----

  lemma {:induction false} OthersFine(files: map<string, seq<byte>>, infos: seq<R.SSTableInfo>,
      stored: map<string, Stored>, path: string, contents: seq<byte>, t: Stored)
    requires LevelFine(files, infos, stored) && path !in stored
    ensures LevelFine(files[path := contents], infos, stored[path := t])
    ensures ViewOf(infos, stored[path := t]) == ViewOf(infos, stored)
  {
    hide S.IsFile;
    hide MetaOf;
  }

  lemma {:induction false} StoreGrows(stored: map<string, Stored>, path: string, t: Stored, lru: seq<C.Entry>)
    requires AllFit(stored) && path !in stored && Fits(t.r, t.es) && E.Sorted(t.es) && IO.Coherent(lru, StoreOf(stored))
    ensures AllFit(stored[path := t]) && IO.Coherent(lru, StoreOf(stored[path := t]))
  {
    hide Fits;
    hide TableOf;
    hide IO.Genuine;
    assert forall p :: p in stored ==> p != path;
  }

  lemma {:induction false} NamesGrow(l0: seq<R.SSTableInfo>, l1: seq<R.SSTableInfo>, stored: map<string, Stored>,
      sstSeq: u64, info: R.SSTableInfo, t: Stored, seqNo: u64)
    requires NamesFine(l0, l1, stored, sstSeq) && seqNo < sstSeq
    requires info.path == FlushPath(seqNo) && info.meta.sequence == seqNo
    ensures NamesFine(l0 + [info], l1, stored[info.path := t], sstSeq)
  {
    hide FlushPath;
    hide OutputPath;
    assert Spent(info.path, sstSeq);
  }

  lemma {:induction false} InLevelSnoc(p: string, l: seq<R.SSTableInfo>, info: R.SSTableInfo)
    ensures InLevel(p, l + [info]) <==> InLevel(p, l) || p == info.path
  {
    var m := l + [info];
    assert m[|l|] == info;
    if i :| 0 <= i < |l| && l[i].path == p {
      assert m[i].path == p;
    }
  }

  lemma {:induction false} DistinctSnoc(l: seq<R.SSTableInfo>, stored: map<string, Stored>, info: R.SSTableInfo)
    requires DistinctPaths(l) && info.path !in stored && forall i :: 0 <= i < |l| ==> l[i].path in stored
    ensures DistinctPaths(l + [info])
  {
  }

  lemma {:induction false} TidyGrows0(files: map<string, seq<byte>>, l0: seq<R.SSTableInfo>, l1: seq<R.SSTableInfo>,
                                      stored: map<string, Stored>, info: R.SSTableInfo, contents: seq<byte>)
    requires Tidy(files, l0, l1) && info.path !in stored && forall i :: 0 <= i < |l0| ==> l0[i].path in stored
    ensures Tidy(files[info.path := contents], l0 + [info], l1)
  {
    DistinctSnoc(l0, stored, info);
    hide DistinctPaths;
    hide InLevel;
    forall p | p in files || p == info.path ensures InLevel(p, l0 + [info]) || InLevel(p, l1) {
      InLevelSnoc(p, l0, info);
    }
  }

  lemma {:induction false} TidyGrows1(files: map<string, seq<byte>>, l0: seq<R.SSTableInfo>, l1: seq<R.SSTableInfo>,
                                      stored: map<string, Stored>, info: R.SSTableInfo, contents: seq<byte>)
    requires Tidy(files, l0, l1) && info.path !in stored && forall i :: 0 <= i < |l1| ==> l1[i].path in stored
    ensures Tidy(files[info.path := contents], l0, l1 + [info])
  {
    DistinctSnoc(l1, stored, info);
    hide DistinctPaths;
    hide InLevel;
    forall p | p in files || p == info.path ensures InLevel(p, l0) || InLevel(p, l1 + [info]) {
      InLevelSnoc(p, l1, info);
    }
  }

  lemma {:induction false} ViewSnoc(infos: seq<R.SSTableInfo>, info: R.SSTableInfo, stored: map<string, Stored>)
    requires info.path in stored && forall i :: 0 <= i < |infos| ==> infos[i].path in stored
    ensures ViewOf(infos + [info], stored) == ViewOf(infos, stored) + [Input(info.meta.sequence, stored[info.path].es)]
  {
  }

  lemma {:induction false} FineSnoc(files: map<string, seq<byte>>, infos: seq<R.SSTableInfo>, info: R.SSTableInfo,
      stored: map<string, Stored>)
    requires LevelFine(files, infos, stored) && info.path in stored
    requires R.Holding(files, info, stored[info.path].r, stored[info.path].es)
    ensures LevelFine(files, infos + [info], stored)
  {
    hide R.Holding;
  }

  /** A new level-0 table under a new name. */
  lemma {:induction false} TableAdded(files: map<string, seq<byte>>, levels: seq<seq<R.SSTableInfo>>,
      stored: map<string, Stored>, sstSeq: u64, info: R.SSTableInfo, t: Stored, contents: seq<byte>, lru: seq<C.Entry>,
      seqNo: u64)
    requires LevelsFine(files, levels, stored, sstSeq) && IO.Coherent(lru, StoreOf(stored))
    requires seqNo < sstSeq && info.path == FlushPath(seqNo) && info.path !in stored
    requires S.IsFile(contents, t.r, t.es) && t.r.sequence == seqNo
             && info == R.SSTableInfo(info.path, MetaOf(t.r, t.es), |contents|)
    ensures var files', stored' := files[info.path := contents], stored[info.path := t];
            var levels' := levels[0 := levels[0] + [info]];
            && LevelsFine(files', levels', stored', sstSeq)
            && AllFit(stored') && IO.Coherent(lru, StoreOf(stored'))
            && ViewOf(levels'[0], stored') == ViewOf(levels[0], stored) + [Input(seqNo, t.es)]
            && ViewOf(levels'[1], stored') == ViewOf(levels[1], stored)
  {
    hide *;
    var path := info.path;
    LevelsParts(files, levels, stored, sstSeq);
    NewHeld(files, info, t, contents);
    OthersFine(files, levels[0], stored, path, contents, t);
    OthersFine(files, levels[1], stored, path, contents, t);
    StoreGrows(stored, path, t, lru);
    NamesGrow(levels[0], levels[1], stored, sstSeq, info, t, seqNo);
    TidyGrows0(files, levels[0], levels[1], stored, info, contents);
    FineSnoc(files[path := contents], levels[0], info, stored[path := t]);
    AllListed(files[path := contents], levels[0], stored[path := t]);
    ViewSnoc(levels[0], info, stored[path := t]);
    LevelsWhole(files[path := contents], levels[0 := levels[0] + [info]], stored[path := t], sstSeq);
  }

  lemma {:induction false} AllListed(files: map<string, seq<byte>>, infos: seq<R.SSTableInfo>,
      stored: map<string, Stored>)
    requires LevelFine(files, infos, stored)
    ensures forall i :: 0 <= i < |infos| ==> infos[i].path in stored
  {
    hide R.Holding;
  }

  lemma {:induction false} NewHeld(files: map<string, seq<byte>>, info: R.SSTableInfo, t: Stored, contents: seq<byte>)
    requires S.IsFile(contents, t.r, t.es) && info == R.SSTableInfo(info.path, MetaOf(t.r, t.es), |contents|)
    ensures R.Holding(files[info.path := contents], info, t.r, t.es) && Fits(t.r, t.es) && E.Sorted(t.es)
    ensures info.meta.sequence == t.r.sequence
  {
    hide MetaOf;
    assert info.meta.sequence == t.r.sequence by {
      MetaSequence(t.r, t.es);
    }
  }

  lemma {:induction false} MetaSequence(r: Recipe, es: seq<Event>)
    ensures MetaOf(r, es).sequence == r.sequence
  {
    hide Pack;
    hide BlockBytes;
  }

  lemma {:induction false} LevelsParts(files: map<string, seq<byte>>, levels: seq<seq<R.SSTableInfo>>,
      stored: map<string, Stored>, sstSeq: u64)
    requires LevelsFine(files, levels, stored, sstSeq)
    ensures |levels| == 4 && levels[2] == [] && levels[3] == [] && AllFit(stored)
    ensures LevelFine(files, levels[0], stored)
    ensures LevelFine(files, levels[1], stored)
    ensures NamesFine(levels[0], levels[1], stored, sstSeq) && Tidy(files, levels[0], levels[1])
    ensures forall i :: 0 <= i < |levels[0]| ==> levels[0][i].path in stored
    ensures forall i :: 0 <= i < |levels[1]| ==> levels[1][i].path in stored
  {
    hide R.Holding;
    hide NamesFine;
    hide Tidy;
    hide AllFit;
  }

  lemma {:induction false} LevelsWhole(files: map<string, seq<byte>>, levels: seq<seq<R.SSTableInfo>>,
      stored: map<string, Stored>, sstSeq: u64)
    requires |levels| == 4 && levels[2] == [] && levels[3] == [] && AllFit(stored)
    requires LevelFine(files, levels[0], stored)
    requires LevelFine(files, levels[1], stored)
    requires NamesFine(levels[0], levels[1], stored, sstSeq) && Tidy(files, levels[0], levels[1])
    ensures LevelsFine(files, levels, stored, sstSeq)
  {
    hide LevelFine;
    hide NamesFine;
    hide Tidy;
    hide AllFit;
  }

  ghost predicate Grown(l: seq<Input>, l0: seq<Input>, p: seq<seq<Event>>, q: u64) {
    l == l0 + Numbered(p, q)
  }

  lemma {:induction false} NoneNumbered(l: seq<Input>, p: seq<seq<Event>>, q: u64)
    ensures Grown(l, l, p[..0], q)
  {
  }

  lemma {:induction false} OneNumbered(l: seq<Input>, p: seq<seq<Event>>, q: u64, k: nat, before: seq<Input>,
      after: seq<Input>)
    requires k < |p| && q + |p| < 0x1_0000_0000_0000_0000 && p[k] != []
    requires Grown(before, l, p[..k], q) && after == before + if p[k] == [] then [] else [Input(q + k, p[k])]
    ensures Grown(after, l, p[..k + 1], q)
  {
    assert Numbered(p[..k + 1], q) == Numbered(p[..k], q) + [Input(q + k, p[k])];
  }
}
