/** What a level-0 compaction does to the files, the levels and their names. */
module DBCompact {
  import opened Bytes
  import opened Core
  import opened Compactions
  import opened DBModel
  import opened DBTables
  import opened Paths
  import opened TableFormat
  import C = Caches
  import E = Events
  import F = Bloom
  import IO = TableIO
  import N = DBNames
  import R = CompactionRuns
  import S = SSTables

  // ---- sorting level 1 ----

  function InsertInfo(l: seq<R.SSTableInfo>, x: R.SSTableInfo): seq<R.SSTableInfo> {
    if l == [] || l[|l| - 1].meta.sequence <= x.meta.sequence then l + [x]
    else InsertInfo(l[..|l| - 1], x) + [l[|l| - 1]]
  }

  /** By sequence, as `std::sort` leaves distinct sequences. */
  function SortInfos(l: seq<R.SSTableInfo>): seq<R.SSTableInfo> {
    if l == [] then [] else InsertInfo(SortInfos(l[..|l| - 1]), l[|l| - 1])
  }

  /** The sequences never descend. */
  ghost predicate InOrder(l: seq<R.SSTableInfo>) {
    forall i, j :: 0 <= i < j < |l| ==> l[i].meta.sequence <= l[j].meta.sequence
  }

  lemma {:induction false} NoInfoAbove(m: seq<R.SSTableInfo>, f: seq<R.SSTableInfo>, x: R.SSTableInfo, q: nat)
    requires multiset(m) == multiset(f) + multiset{x} && x.meta.sequence <= q
    requires forall i :: 0 <= i < |f| ==> f[i].meta.sequence <= q
    ensures forall i :: 0 <= i < |m| ==> m[i].meta.sequence <= q
  {
    forall i | 0 <= i < |m| ensures m[i].meta.sequence <= q {
      assert m[i] in multiset(m);
      assert m[i] == x || m[i] in multiset(f);
    }
  }

  lemma {:induction false} InsertInfoSorts(l: seq<R.SSTableInfo>, x: R.SSTableInfo)
    requires InOrder(l)
    ensures InOrder(InsertInfo(l, x)) && multiset(InsertInfo(l, x)) == multiset(l) + multiset{x}
  {
    if l != [] && l[|l| - 1].meta.sequence > x.meta.sequence {
      var f, y := l[..|l| - 1], l[|l| - 1];
      InsertInfoSorts(f, x);
      assert l == f + [y];
      var g := InsertInfo(f, x);
      assert InsertInfo(l, x) == g + [y];
      hide InsertInfo;
      NoInfoAbove(g, f, x, y.meta.sequence);
    }
  }

  /** A sorted level lists the same tables in the order of their sequences. */
  lemma {:induction false} SortInfosSorts(l: seq<R.SSTableInfo>)
    ensures InOrder(SortInfos(l)) && multiset(SortInfos(l)) == multiset(l)
  {
    if l != [] {
      var f, x := l[..|l| - 1], l[|l| - 1];
      SortInfosSorts(f);
      InsertInfoSorts(SortInfos(f), x);
      assert l == f + [x];
      hide InsertInfo;
      hide InOrder;
    }
  }

  lemma {:induction false} InsertInfoView(l: seq<R.SSTableInfo>, x: R.SSTableInfo, stored: map<string, Stored>)
    requires x.path in stored && forall i :: 0 <= i < |l| ==> l[i].path in stored
    ensures forall y :: y in InsertInfo(l, x) <==> y in l || y == x
    ensures forall i :: 0 <= i < |InsertInfo(l, x)| ==> InsertInfo(l, x)[i].path in stored
    ensures ViewOf(InsertInfo(l, x), stored)
         == InsertBySeq(ViewOf(l, stored), Input(x.meta.sequence, stored[x.path].es))
  {
    if l == [] || l[|l| - 1].meta.sequence <= x.meta.sequence {
      ViewSnoc(l, x, stored);
    } else {
      var m, y := l[..|l| - 1], l[|l| - 1];
      assert l == m + [y];
      InsertInfoView(m, x, stored);
      ViewSnoc(InsertInfo(m, x), y, stored);
      ViewSnoc(m, y, stored);
      assert ViewOf(l, stored)[..|l| - 1] == ViewOf(m, stored);
    }
  }

  lemma {:induction false} SortInfosView(l: seq<R.SSTableInfo>, stored: map<string, Stored>)
    requires forall i :: 0 <= i < |l| ==> l[i].path in stored
    ensures forall y :: y in SortInfos(l) <==> y in l
    ensures forall i :: 0 <= i < |SortInfos(l)| ==> SortInfos(l)[i].path in stored
    ensures ViewOf(SortInfos(l), stored) == SortBySeq(ViewOf(l, stored))
  {
    if l != [] {
      var m, x := l[..|l| - 1], l[|l| - 1];
      assert l == m + [x];
      SortInfosView(m, stored);
      InsertInfoView(SortInfos(m), x, stored);
      ViewSnoc(m, x, stored);
      assert ViewOf(l, stored)[..|l| - 1] == ViewOf(m, stored);
      hide InsertInfo;
      hide InsertBySeq;
    }
  }

  // ---- deleting the inputs ----

  function Deleted(files: map<string, seq<byte>>, infos: seq<R.SSTableInfo>): map<string, seq<byte>> {
    if infos == [] then files else Deleted(files, infos[..|infos| - 1]) - {infos[|infos| - 1].path}
  }

  lemma {:induction false} DeletedKeeps(files: map<string, seq<byte>>, infos: seq<R.SSTableInfo>, p: string)
    requires p in files && forall i :: 0 <= i < |infos| ==> infos[i].path != p
    ensures p in Deleted(files, infos) && Deleted(files, infos)[p] == files[p]
  {
    if infos != [] {
      DeletedKeeps(files, infos[..|infos| - 1], p);
    }
  }

  /** Entries whose path is among the compacted files leave the level. */
  function DropListed(infos: seq<R.SSTableInfo>, gone: seq<R.SSTableInfo>): seq<R.SSTableInfo> {
    if infos == [] then []
    else
      (if exists j :: 0 <= j < |gone| && gone[j].path == infos[0].path then [] else [infos[0]])
      + DropListed(infos[1..], gone)
  }

  lemma {:induction false} AllDropped(infos: seq<R.SSTableInfo>, gone: seq<R.SSTableInfo>)
    requires forall x :: x in infos ==> x in gone
    ensures DropListed(infos, gone) == []
  {
    if infos != [] {
      assert infos[0] in gone;
      AllDropped(infos[1..], gone);
    }
  }

  // ---- adding the outputs ----

  /** The levels as values: what `LevelsFine` says of levels 0 and 1. */
  ghost predicate Fine(files: map<string, seq<byte>>, l0: seq<R.SSTableInfo>, l1: seq<R.SSTableInfo>,
      stored: map<string, Stored>, q: u64) {
    && AllFit(stored) && LevelFine(files, l0, stored) && LevelFine(files, l1, stored) && NamesFine(l0, l1, stored, q)
    && Tidy(files, l0, l1)
  }

  /** The ghost record after the outputs were written. */
  ghost function StoredAll(stored: map<string, Stored>, job: R.Job, c: seq<seq<Event>>): map<string, Stored> {
    if c == [] then stored
    else
      var n := |c| - 1;
      StoredAll(stored, job, c[..n])[R.PathAt(job, n) := Stored(R.RecipeAt(job, n), c[n])]
  }

  lemma {:induction false} NamesGrow1(l0: seq<R.SSTableInfo>, l1: seq<R.SSTableInfo>, stored: map<string, Stored>,
      q: u64, info: R.SSTableInfo, t: Stored)
    requires NamesFine(l0, l1, stored, q) && info.path == OutputPath("l1", 1, info.meta.sequence)
    ensures NamesFine(l0, l1 + [info], stored[info.path := t], q)
  {
    hide FlushPath;
    hide OutputPath;
    hide Spent;
    var m := l1 + [info];
    assert m[|l1|] == info;
    forall p | InLevel(p, l1) ensures InLevel(p, m) {
      var i :| 0 <= i < |l1| && l1[i].path == p;
      assert m[i] == l1[i];
    }
    assert InLevel(info.path, m);
  }

  lemma {:induction false} FineParts(files: map<string, seq<byte>>, l0: seq<R.SSTableInfo>, l1: seq<R.SSTableInfo>,
      stored: map<string, Stored>, q: u64)
    requires Fine(files, l0, l1, stored, q)
    ensures AllFit(stored)
    ensures LevelFine(files, l0, stored)
    ensures LevelFine(files, l1, stored)
    ensures NamesFine(l0, l1, stored, q) && Tidy(files, l0, l1)
    ensures forall i :: 0 <= i < |l0| ==> l0[i].path in stored
    ensures forall i :: 0 <= i < |l1| ==> l1[i].path in stored
  {
    hide R.Holding;
    hide NamesFine;
    hide Tidy;
    hide AllFit;
  }

  lemma {:induction false} FineWhole(files: map<string, seq<byte>>, l0: seq<R.SSTableInfo>, l1: seq<R.SSTableInfo>,
      stored: map<string, Stored>, q: u64)
    requires AllFit(stored)
    requires LevelFine(files, l0, stored)
    requires LevelFine(files, l1, stored)
    requires NamesFine(l0, l1, stored, q) && Tidy(files, l0, l1)
    ensures Fine(files, l0, l1, stored, q)
  {
    hide LevelFine;
    hide NamesFine;
    hide Tidy;
    hide AllFit;
  }

  lemma {:induction false} OutputAdded(files: map<string, seq<byte>>, l0: seq<R.SSTableInfo>, l1: seq<R.SSTableInfo>,
      stored: map<string, Stored>, q: u64, info: R.SSTableInfo, t: Stored, contents: seq<byte>, lru: seq<C.Entry>)
    requires Fine(files, l0, l1, stored, q) && AllFit(stored) && IO.Coherent(lru, StoreOf(stored))
    requires info.path !in stored && info.path == OutputPath("l1", 1, info.meta.sequence)
    requires S.IsFile(contents, t.r, t.es) && info == R.SSTableInfo(info.path, MetaOf(t.r, t.es), |contents|)
    ensures Fine(files[info.path := contents], l0, l1 + [info], stored[info.path := t], q)
    ensures AllFit(stored[info.path := t]) && IO.Coherent(lru, StoreOf(stored[info.path := t]))
  {
    hide *;
    var path := info.path;
    FineParts(files, l0, l1, stored, q);
    NewHeld(files, info, t, contents);
    OthersFine(files, l0, stored, path, contents, t);
    OthersFine(files, l1, stored, path, contents, t);
    StoreGrows(stored, path, t, lru);
    NamesGrow1(l0, l1, stored, q, info, t);
    TidyGrows1(files, l0, l1, stored, info, contents);
    FineSnoc(files[path := contents], l1, info, stored[path := t]);
    FineWhole(files[path := contents], l0, l1 + [info], stored[path := t], q);
  }

  /** The inputs of a compaction into level 1, whose names are all free. */
  ghost predicate Ready(job: R.Job, c: seq<seq<Event>>, l1: seq<R.SSTableInfo>) {
    && job.dir == "l1" && job.level == 1 && F.WellFormed(job.filter) && job.sequence + |c| < TWO_64
    && (forall j :: 0 <= j < |c| ==> |c[j]| < TWO_32 && E.Sorted(c[j]))
    && (forall i, j: nat :: 0 <= i < |l1| && j < |c| ==> l1[i].meta.sequence != R.SequenceAt(job, j))
  }

  lemma {:induction false} ReadyAt(job: R.Job, c: seq<seq<Event>>, l1: seq<R.SSTableInfo>, k: nat)
    requires Ready(job, c, l1) && k < |c|
    ensures F.WellFormed(job.filter) && job.dir == "l1" && job.level == 1 && job.sequence + k < TWO_64
    ensures R.SequenceAt(job, k) == job.sequence + k
    ensures R.PathAt(job, k) == OutputPath("l1", 1, job.sequence + k)
    ensures forall i :: 0 <= i < |l1| ==> l1[i].meta.sequence != job.sequence + k
    ensures S.IsFile(FileOf(R.RecipeAt(job, k), c[k]), R.RecipeAt(job, k), c[k])
  {
    hide OutputPath;
    hide FileOf;
    hide S.IsFile;
    hide E.Sorted;
    hide F.WellFormed;
    assert R.SequenceAt(job, k) == job.sequence + k;
    assert forall i :: 0 <= i < |l1| ==> l1[i].meta.sequence != R.SequenceAt(job, k);
    RecipeFine(job, k);
    Flushable(Stored(R.RecipeAt(job, k), c[k]));
  }

  lemma {:induction false} RecipeFine(job: R.Job, k: nat)
    ensures R.RecipeAt(job, k).filter == job.filter && R.RecipeAt(job, k).target < TWO_32
  {
  }

  lemma {:induction false} InfoSequence(job: R.Job, i: nat, es: seq<Event>)
    requires F.WellFormed(job.filter) && job.sequence + i < TWO_64
    ensures R.InfoAt(job, i, es).meta.sequence == job.sequence + i
  {
    hide *;
    InfoMeta(job, i, es);
    MetaSequence(R.RecipeAt(job, i), es);
    RecipeSequence(job, i);
  }

  lemma {:induction false} InfoMeta(job: R.Job, i: nat, es: seq<Event>)
    requires F.WellFormed(job.filter)
    ensures R.InfoAt(job, i, es).meta == MetaOf(R.RecipeAt(job, i), es)
  {
    hide MetaOf;
    hide FileOf;
    hide R.PathAt;
    hide R.RecipeAt;
    hide F.WellFormed;
  }

  lemma {:induction false} RecipeSequence(job: R.Job, i: nat)
    requires job.sequence + i < TWO_64
    ensures R.RecipeAt(job, i).sequence == job.sequence + i
  {
  }

  /** The next output's name is not taken. */
  lemma {:induction false} FreshOutput(l0: seq<R.SSTableInfo>, l1: seq<R.SSTableInfo>, stored: map<string, Stored>,
      q: u64, n: nat)
    requires NamesFine(l0, l1, stored, q) && forall i :: 0 <= i < |l1| ==> l1[i].meta.sequence != n
    ensures OutputPath("l1", 1, n) !in stored
  {
    var p := OutputPath("l1", 1, n);
    if p in stored {
      hide OutputPath;
      hide FlushPath;
      if Spent(p, q) {
        var m: nat :| m < q && p == FlushPath(m);
        FlushAndOutputDiffer(m, 1, n);
      } else {
        var i :| 0 <= i < |l1| && l1[i].path == p;
        OutputPathInjective("l1", 1, l1[i].meta.sequence, n);
      }
    }
  }

  lemma {:induction false} SequencesApart(job: R.Job, c: seq<seq<Event>>, l1: seq<R.SSTableInfo>, k: nat)
    requires Ready(job, c, l1) && k < |c| && F.WellFormed(job.filter)
    ensures forall i :: 0 <= i < |l1 + R.Outputs(job, c[..k])| ==>
              (l1 + R.Outputs(job, c[..k]))[i].meta.sequence != job.sequence + k
  {
    hide *;
    ReadyAt(job, c, l1, k);
    OutputsCount(job, c[..k]);
    CountsApart(l1, R.Outputs(job, c[..k]), job.sequence, k);
  }

  lemma {:induction false} OutputsCount(job: R.Job, d: seq<seq<Event>>)
    requires F.WellFormed(job.filter) && job.sequence + |d| < TWO_64
    ensures |R.Outputs(job, d)| == |d|
    ensures forall i :: 0 <= i < |d| ==> R.Outputs(job, d)[i].meta.sequence == job.sequence + i
  {
    forall i | 0 <= i < |d| ensures R.Outputs(job, d)[i].meta.sequence == job.sequence + i {
      InfoSequence(job, i, d[i]);
    }
    hide R.InfoAt;
  }

  lemma {:induction false} CountsApart(l1: seq<R.SSTableInfo>, outs: seq<R.SSTableInfo>, q: nat, k: nat)
    requires |outs| == k && forall i :: 0 <= i < k ==> outs[i].meta.sequence == q + i
    requires forall i :: 0 <= i < |l1| ==> l1[i].meta.sequence != q + k
    ensures forall i :: 0 <= i < |l1 + outs| ==> (l1 + outs)[i].meta.sequence != q + k
  {
  }

  lemma {:induction false} StoredSnoc(stored: map<string, Stored>, job: R.Job, c: seq<seq<Event>>, b: seq<Event>)
    ensures StoredAll(stored, job, c + [b])
            == StoredAll(stored, job, c)[R.PathAt(job, |c|) := Stored(R.RecipeAt(job, |c|), b)]
  {
    assert (c + [b])[..|c|] == c;
    hide R.PathAt;
    hide R.RecipeAt;
  }

  ghost predicate Coherent(lru: seq<C.Entry>, stored: map<string, Stored>) {
    AllFit(stored) && IO.Coherent(lru, StoreOf(stored))
  }

  /** Files, levels, names, cache and views after the first k outputs. */
  lemma {:induction false} OutputsAdded(files: map<string, seq<byte>>, l0: seq<R.SSTableInfo>, l1: seq<R.SSTableInfo>,
      stored: map<string, Stored>, q: u64, lru: seq<C.Entry>, job: R.Job, c: seq<seq<Event>>, k: nat)
    requires Fine(files, l0, l1, stored, q) && Coherent(lru, stored) && Ready(job, c, l1) && k <= |c|
    requires F.WellFormed(job.filter) && forall i :: 0 <= i < |l1| ==> l1[i].path in stored
    ensures var d := c[..k];
            var m, stored' := l1 + R.Outputs(job, d), StoredAll(stored, job, d);
            && Fine(R.Written(files, job, d), l0, m, stored', q) && Coherent(lru, stored')
            && (forall i :: 0 <= i < |m| ==> m[i].path in stored')
            && ViewOf(m, stored') == ViewOf(l1, stored) + Numbered(d, job.sequence)
    decreases k
  {
    hide *;
    if k == 0 {
      assert c[..0] == [];
      NothingAdded(files, l1, stored, job);
    } else {
      OutputsAdded(files, l0, l1, stored, q, lru, job, c, k - 1);
      assert c[..k] == c[..k - 1] + [c[k - 1]];
      NextOutput(files, l0, l1, stored, q, lru, job, c, k - 1);
    }
  }

  lemma {:induction false} NothingAdded(files: map<string, seq<byte>>, l1: seq<R.SSTableInfo>,
      stored: map<string, Stored>, job: R.Job)
    requires F.WellFormed(job.filter) && forall i :: 0 <= i < |l1| ==> l1[i].path in stored
    ensures l1 + R.Outputs(job, []) == l1 && StoredAll(stored, job, []) == stored && R.Written(files, job, []) == files
    ensures ViewOf(l1, stored) + Numbered([], job.sequence) == ViewOf(l1, stored)
  {
  }

  lemma {:induction false} NextOutput(files: map<string, seq<byte>>, l0: seq<R.SSTableInfo>, l1: seq<R.SSTableInfo>,
      stored: map<string, Stored>, q: u64, lru: seq<C.Entry>, job: R.Job, c: seq<seq<Event>>, k: nat)
    requires Ready(job, c, l1) && k < |c| && F.WellFormed(job.filter)
    requires forall i :: 0 <= i < |l1| ==> l1[i].path in stored
    requires var d := c[..k];
             var m, stored' := l1 + R.Outputs(job, d), StoredAll(stored, job, d);
             && Fine(R.Written(files, job, d), l0, m, stored', q) && Coherent(lru, stored')
             && (forall i :: 0 <= i < |m| ==> m[i].path in stored')
             && ViewOf(m, stored') == ViewOf(l1, stored) + Numbered(d, job.sequence)
    ensures var d := c[..k] + [c[k]];
            var m, stored' := l1 + R.Outputs(job, d), StoredAll(stored, job, d);
            && Fine(R.Written(files, job, d), l0, m, stored', q) && Coherent(lru, stored')
            && (forall i :: 0 <= i < |m| ==> m[i].path in stored')
            && ViewOf(m, stored') == ViewOf(l1, stored) + Numbered(d, job.sequence)
  {
    hide *;
    var d, b, r, path := c[..k], c[k], R.RecipeAt(job, k), R.PathAt(job, k);
    var m, stored' := l1 + R.Outputs(job, d), StoredAll(stored, job, d);
    RecipeFine(job, k);
    ReadyAt(job, c, l1, k);
    var info, t := R.SSTableInfo(path, MetaOf(r, b), |FileOf(r, b)|), Stored(r, b);
    OutputInfo(job, k, b, info);
    SequencesApart(job, c, l1, k);
    FineParts(R.Written(files, job, d), l0, m, stored', q);
    FreshOutput(l0, m, stored', q, job.sequence + k);
    R.OneMoreOutput(files, job, d, b);
    StoredSnoc(stored, job, d, b);
    CoherentIs(lru, stored');
    OutputAdded(R.Written(files, job, d), l0, m, stored', q, info, t, FileOf(r, b), lru);
    IsCoherent(lru, stored'[path := t]);
    OthersFine(R.Written(files, job, d), m, stored', path, FileOf(r, b), t);
    FineParts(R.Written(files, job, d)[path := FileOf(r, b)], l0, m + [info], stored'[path := t], q);
    ViewSnoc(m, info, stored'[path := t]);
    assert l1 + (R.Outputs(job, d) + [info]) == m + [info];
    NumberedSnoc(ViewOf(l1, stored), d, b, job.sequence, job.sequence + k);
  }

  lemma {:induction false} OutputInfo(job: R.Job, k: nat, b: seq<Event>, info: R.SSTableInfo)
    requires F.WellFormed(job.filter) && R.SequenceAt(job, k) == job.sequence + k
    requires info == R.SSTableInfo(R.PathAt(job, k), MetaOf(R.RecipeAt(job, k), b), |FileOf(R.RecipeAt(job, k), b)|)
    ensures info.meta.sequence == job.sequence + k && R.RecipeAt(job, k).filter == job.filter
  {
    MetaSequence(R.RecipeAt(job, k), b);
    hide MetaOf;
    hide FileOf;
    hide R.PathAt;
  }

  lemma {:induction false} CoherentIs(lru: seq<C.Entry>, stored: map<string, Stored>)
    requires Coherent(lru, stored)
    ensures AllFit(stored) && IO.Coherent(lru, StoreOf(stored))
  {
    hide AllFit;
    hide IO.Coherent;
  }

  lemma {:induction false} IsCoherent(lru: seq<C.Entry>, stored: map<string, Stored>)
    requires AllFit(stored) && IO.Coherent(lru, StoreOf(stored))
    ensures Coherent(lru, stored)
  {
    hide AllFit;
    hide IO.Coherent;
  }

  lemma {:induction false} NumberedSnoc(view: seq<Input>, d: seq<seq<Event>>, b: seq<Event>, q: u64, n: u64)
    requires n == q + |d|
    ensures view + Numbered(d, q) + [Input(n, b)] == view + Numbered(d + [b], q)
  {
  }

  // ---- swapping the levels ----

  lemma {:induction false} StillHeld(files: map<string, seq<byte>>, l0: seq<R.SSTableInfo>, info: R.SSTableInfo,
      r: Recipe, es: seq<Event>)
    requires R.Holding(files, info, r, es) && forall i :: 0 <= i < |l0| ==> l0[i].path != info.path
    ensures R.Holding(Deleted(files, l0), info, r, es)
  {
    DeletedKeeps(files, l0, info.path);
    hide Deleted;
    hide MetaOf;
  }

  /** Level 0 is emptied and its files deleted; level 1 is sorted. */
  lemma {:induction false} LevelsSwapped(files: map<string, seq<byte>>, l0: seq<R.SSTableInfo>, l1: seq<R.SSTableInfo>,
      stored: map<string, Stored>, q: u64)
    requires Fine(files, l0, l1, stored, q)
    ensures LevelsFine(Deleted(files, l0), [[], SortInfos(l1), [], []], stored, q)
  {
    hide *;
    FineParts(files, l0, l1, stored, q);
    SortInfosView(l1, stored);
    SortedFine(files, l0, l1, stored, q);
    SortedNames(l0, l1, stored, q);
    TidySwapped(files, l0, l1);
    NoneFine(Deleted(files, l0), stored);
    LevelsWhole(Deleted(files, l0), [[], SortInfos(l1), [], []], stored, q);
  }

  /** Deleting the tables of level 0 leaves those of level 1. */
  lemma {:induction false} TidySwapped(files: map<string, seq<byte>>, l0: seq<R.SSTableInfo>, l1: seq<R.SSTableInfo>)
    requires Tidy(files, l0, l1)
    ensures Tidy(Deleted(files, l0), [], SortInfos(l1))
  {
    SortDistinct(l1);
    SortInfosMember(l1);
    NoPaths();
    hide DistinctPaths;
    forall p | p in Deleted(files, l0) ensures InLevel(p, SortInfos(l1)) {
      DeletedLacks(files, l0, p);
      var i :| 0 <= i < |l1| && l1[i].path == p;
      assert l1[i] in SortInfos(l1);
    }
  }

  lemma {:induction false} NoPaths()
    ensures DistinctPaths([])
  {
  }

  lemma {:induction false} DeletedLacks(files: map<string, seq<byte>>, infos: seq<R.SSTableInfo>, p: string)
    requires p in Deleted(files, infos)
    ensures p in files && !InLevel(p, infos)
  {
    if infos != [] {
      var m, x := infos[..|infos| - 1], infos[|infos| - 1];
      DeletedLacks(files, m, p);
      InLevelSnoc(p, m, x);
      assert m + [x] == infos;
    }
  }

  lemma {:induction false} SortDistinct(l: seq<R.SSTableInfo>)
    requires DistinctPaths(l)
    ensures DistinctPaths(SortInfos(l))
  {
    if l != [] {
      var m, x := l[..|l| - 1], l[|l| - 1];
      SortDistinct(m);
      SortInfosMember(m);
      InsertDistinct(SortInfos(m), x);
    }
  }

  lemma {:induction false} InsertDistinct(l: seq<R.SSTableInfo>, x: R.SSTableInfo)
    requires DistinctPaths(l) && forall y :: y in l ==> y.path != x.path
    ensures DistinctPaths(InsertInfo(l, x))
  {
    if l != [] && l[|l| - 1].meta.sequence > x.meta.sequence {
      var m, y := l[..|l| - 1], l[|l| - 1];
      InsertDistinct(m, x);
      InsertInfoMember(m, x);
      forall z | z in InsertInfo(m, x) ensures z.path != y.path {
        if z != x {
          var i :| 0 <= i < |m| && m[i] == z;
        }
      }
    }
  }

  lemma {:induction false} NoneFine(files: map<string, seq<byte>>, stored: map<string, Stored>)
    ensures LevelFine(files, [], stored)
  {
  }

  lemma {:induction false} SortedFine(files: map<string, seq<byte>>, l0: seq<R.SSTableInfo>, l1: seq<R.SSTableInfo>,
      stored: map<string, Stored>, q: u64)
    requires LevelFine(files, l1, stored) && NamesFine(l0, l1, stored, q) && forall y :: y in SortInfos(l1) <==> y in l1
    ensures LevelFine(Deleted(files, l0), SortInfos(l1), stored)
  {
    var m := SortInfos(l1);
    hide SortInfos;
    hide Deleted;
    hide R.Holding;
    hide FlushPath;
    hide OutputPath;
    forall i | 0 <= i < |m|
      ensures m[i].path in stored && R.Holding(Deleted(files, l0), m[i], stored[m[i].path].r, stored[m[i].path].es)
    {
      assert m[i] in l1;
      var j :| 0 <= j < |l1| && l1[j] == m[i];
      forall x | 0 <= x < |l0| ensures l0[x].path != m[i].path {
        FlushAndOutputDiffer(l0[x].meta.sequence, 1, l1[j].meta.sequence);
      }
      StillHeld(files, l0, m[i], stored[m[i].path].r, stored[m[i].path].es);
    }
  }

  lemma {:induction false} SortedNames(l0: seq<R.SSTableInfo>, l1: seq<R.SSTableInfo>, stored: map<string, Stored>,
      q: u64)
    requires NamesFine(l0, l1, stored, q) && forall y :: y in SortInfos(l1) <==> y in l1
    ensures NamesFine([], SortInfos(l1), stored, q)
  {
    var m := SortInfos(l1);
    hide SortInfos;
    hide FlushPath;
    hide OutputPath;
    forall i | 0 <= i < |m| ensures m[i].path == OutputPath("l1", 1, m[i].meta.sequence) {
      assert m[i] in l1;
    }
    forall p | InLevel(p, l1) ensures InLevel(p, m) {
      var i :| 0 <= i < |l1| && l1[i].path == p;
      assert l1[i] in m;
      var j :| 0 <= j < |m| && m[j] == l1[i];
    }
    hide Spent;
  }

  // ---- the whole compaction ----

  function RecipesOf(infos: seq<R.SSTableInfo>, stored: map<string, Stored>): (rs: seq<Recipe>)
    requires forall i :: 0 <= i < |infos| ==> infos[i].path in stored
    ensures |rs| == |infos| && forall i :: 0 <= i < |rs| ==> rs[i] == stored[infos[i].path].r
  {
    seq(|infos|, i requires 0 <= i < |infos| => stored[infos[i].path].r)
  }

  lemma {:induction false} InputsHold(files: map<string, seq<byte>>, infos: seq<R.SSTableInfo>,
      stored: map<string, Stored>)
    requires LevelFine(files, infos, stored) && forall i :: 0 <= i < |infos| ==> infos[i].path in stored
    ensures R.AllHolding(files, infos, ViewOf(infos, stored), RecipesOf(infos, stored))
  {
    hide R.Holding;
    assert forall i :: 0 <= i < |infos| ==>
             R.Holding(files, infos[i], RecipesOf(infos, stored)[i], ViewOf(infos, stored)[i].events);
  }

  ghost function ChunksOf(l: seq<Input>, target: nat): seq<seq<Event>> {
    R.Chunked(Merged(l, 1), R.PerFile(target))
  }

  lemma {:induction false} ChunkFine(l: seq<Input>, target: nat, j: nat)
    requires j < |ChunksOf(l, target)| && R.PerFile(target) < TWO_32
    ensures |ChunksOf(l, target)[j]| < TWO_32 && E.Sorted(ChunksOf(l, target)[j])
  {
    MergedSorted(l, 1);
    ChunkIn(Merged(l, 1), R.PerFile(target), j);
    hide Merged;
    hide R.PerFile;
    hide R.Chunked;
  }

  lemma {:induction false} ChunkIn(all: seq<Event>, n: nat, j: nat)
    requires n > 0 && E.Sorted(all) && j < |R.Chunked(all, n)|
    ensures |R.Chunked(all, n)[j]| <= n && E.Sorted(R.Chunked(all, n)[j])
  {
    var c := R.Chunked(all, n);
    R.ChunkSizes(all, n);
    assert NoneEmpty(c);
    hide R.Chunked;
    hide E.Sorted;
    S.BlockBorder(c, j);
  }

  lemma {:induction false} ChunksReady(job: R.Job, l: seq<Input>, target: nat, l1: seq<R.SSTableInfo>)
    requires job.dir == "l1" && job.level == 1 && F.WellFormed(job.filter)
    requires job.sequence + |ChunksOf(l, target)| < TWO_64 && R.PerFile(target) < TWO_32
    requires forall i, j: nat :: 0 <= i < |l1| && j < |ChunksOf(l, target)| ==>
               l1[i].meta.sequence != R.SequenceAt(job, j)
    ensures Ready(job, ChunksOf(l, target), l1)
  {
    forall j: nat | j < |ChunksOf(l, target)|
      ensures |ChunksOf(l, target)[j]| < TWO_32 && E.Sorted(ChunksOf(l, target)[j])
    {
      ChunkFine(l, target, j);
    }
    hide ChunksOf;
    hide E.Sorted;
    hide F.WellFormed;
  }

  /** The state of files, levels, record and cache after a compaction whose output names were free. */
  lemma {:induction false} CompactionOutcome(files: map<string, seq<byte>>, l0: seq<R.SSTableInfo>,
      l1: seq<R.SSTableInfo>, stored: map<string, Stored>, q: u64, lru: seq<C.Entry>, job: R.Job, c: seq<seq<Event>>)
    requires Fine(files, l0, l1, stored, q) && Coherent(lru, stored) && Ready(job, c, l1)
    requires F.WellFormed(job.filter) && (forall i :: 0 <= i < |l1| ==> l1[i].path in stored)
    ensures var files', m, stored' := R.Written(files, job, c), l1 + R.Outputs(job, c), StoredAll(stored, job, c);
            && LevelsFine(Deleted(files', l0), [[], SortInfos(m), [], []], stored', q)
            && Coherent(lru, stored') && AllFit(stored')
            && (forall i :: 0 <= i < |SortInfos(m)| ==> SortInfos(m)[i].path in stored')
            && ViewOf(SortInfos(m), stored') == SortBySeq(ViewOf(l1, stored) + Numbered(c, job.sequence))
            && InOrder(SortInfos(m)) && multiset(SortInfos(m)) == multiset(m)
  {
    hide *;
    SortInfosSorts(l1 + R.Outputs(job, c));
    assert c[..|c|] == c;
    OutputsAdded(files, l0, l1, stored, q, lru, job, c, |c|);
    var m, stored' := l1 + R.Outputs(job, c), StoredAll(stored, job, c);
    LevelsSwapped(R.Written(files, job, c), l0, m, stored', q);
    SortInfosView(m, stored');
    CoherentIs(lru, stored');
  }

  lemma {:induction false} RunLeaves(inputs: seq<Input>, infos: seq<R.SSTableInfo>, job: R.Job, target: nat,
      files0: map<string, seq<byte>>, files: map<string, seq<byte>>, outputs: seq<R.SSTableInfo>, stats: R.Stats)
    requires F.WellFormed(job.filter) && job.level == 1
             && R.Compacted(inputs, infos, job, target, files0, files, outputs, stats)
    ensures outputs == R.Outputs(job, ChunksOf(inputs, target))
            && files == R.Written(files0, job, ChunksOf(inputs, target))
  {
    hide Merged;
    hide R.Chunked;
    hide R.Outputs;
    hide R.Written;
  }

  lemma {:induction false} NewTablesAre(s: State, target: nat)
    ensures NewTables(s, target) == Numbered(ChunksOf(s.l0, target), s.sstSeq)
    ensures |NewTables(s, target)| == |ChunksOf(s.l0, target)|
  {
    hide R.Chunked;
    hide Merged;
  }

  /** Without a collision every output name is free. */
  lemma {:induction false} FreeNames(s: State, target: nat, job: R.Job, l1: seq<R.SSTableInfo>,
      stored: map<string, Stored>)
    requires !N.Collides(s, target) && s.sstSeq + |NewTables(s, target)| < 0x1_0000_0000_0000_0000
    requires (forall i :: 0 <= i < |l1| ==> l1[i].path in stored) && s.l1 == ViewOf(l1, stored)
    requires job.dir == "l1" && job.level == 1 && job.sequence == s.sstSeq && F.WellFormed(job.filter)
             && R.PerFile(target) < TWO_32
    ensures Ready(job, ChunksOf(s.l0, target), l1)
  {
    var c := ChunksOf(s.l0, target);
    NewTablesAre(s, target);
    hide ChunksOf;
    hide NewTables;
    hide F.WellFormed;
    hide R.PerFile;
    forall i, j: nat | 0 <= i < |l1| && j < |c| ensures l1[i].meta.sequence != R.SequenceAt(job, j) {
      assert NewTables(s, target)[j].sequence == R.SequenceAt(job, j);
      assert s.l1[i].sequence == l1[i].meta.sequence;
    }
    hide Ready;
    ChunksReady(job, s.l0, target, l1);
  }

  lemma {:induction false} FineOf(files: map<string, seq<byte>>, levels: seq<seq<R.SSTableInfo>>,
      stored: map<string, Stored>, q: u64)
    requires LevelsFine(files, levels, stored, q)
    ensures |levels| == 4 && Fine(files, levels[0], levels[1], stored, q)
  {
    hide Tidy;
    hide AllFit;
    hide LevelFine;
    hide NamesFine;
  }

  lemma {:induction false} NothingToCompact(s: State, target: nat)
    requires s.l0 == []
    ensures Compacted(s, target) == s
  {
  }

  // ---- when an output takes the name of a listed table ----

  /** What a compaction that wrote something leaves on disk and in the levels, whatever the names. */
  ghost predicate Replaced(files0: map<string, seq<byte>>, l0: seq<R.SSTableInfo>, l1: seq<R.SSTableInfo>, job: R.Job,
      c: seq<seq<Event>>, files: map<string, seq<byte>>, levels: seq<seq<R.SSTableInfo>>)
    requires F.WellFormed(job.filter)
  {
    files == Deleted(R.Written(files0, job, c), l0) && levels == [[], SortInfos(l1 + R.Outputs(job, c)), [], []]
  }

  lemma {:induction false} SortInfosMember(l: seq<R.SSTableInfo>)
    ensures forall y :: y in SortInfos(l) <==> y in l
  {
    if l != [] {
      var m, x := l[..|l| - 1], l[|l| - 1];
      assert l == m + [x];
      SortInfosMember(m);
      InsertInfoMember(SortInfos(m), x);
      hide InsertInfo;
    }
  }

  lemma {:induction false} InsertInfoMember(l: seq<R.SSTableInfo>, x: R.SSTableInfo)
    ensures forall y :: y in InsertInfo(l, x) <==> y in l || y == x
  {
    if l != [] && l[|l| - 1].meta.sequence > x.meta.sequence {
      var m, y := l[..|l| - 1], l[|l| - 1];
      assert l == m + [y];
      InsertInfoMember(m, x);
    }
  }

  lemma {:induction false} WrittenAt(files: map<string, seq<byte>>, job: R.Job, c: seq<seq<Event>>, j: nat)
    requires F.WellFormed(job.filter) && job.sequence + |c| < TWO_64 && j < |c|
    ensures R.PathAt(job, j) in R.Written(files, job, c)
    ensures R.Written(files, job, c)[R.PathAt(job, j)] == FileOf(R.RecipeAt(job, j), c[j])
  {
    hide FileOf;
    hide R.RecipeAt;
    hide R.PathAt;
    hide F.WellFormed;
    var n := |c| - 1;
    if j < n {
      WrittenAt(files, job, c[..n], j);
      PathsApart(job, j, n);
    }
  }

  lemma {:induction false} PathsApart(job: R.Job, j: nat, n: nat)
    requires j < n && job.sequence + n < 0x1_0000_0000_0000_0000
    ensures R.PathAt(job, j) != R.PathAt(job, n)
  {
    hide *;
    PathIs(job, j);
    PathIs(job, n);
    SequenceIs(job, j);
    SequenceIs(job, n);
    OutputPathInjective(job.dir, job.level, R.SequenceAt(job, j), R.SequenceAt(job, n));
  }

  lemma {:induction false} PathIs(job: R.Job, j: nat)
    ensures R.PathAt(job, j) == OutputPath(job.dir, job.level, R.SequenceAt(job, j))
  {
    hide OutputPath;
    hide R.SequenceAt;
  }

  lemma {:induction false} SequenceIs(job: R.Job, j: nat)
    requires job.sequence + j < 0x1_0000_0000_0000_0000
    ensures R.SequenceAt(job, j) == job.sequence + j
  {
  }

  /** A listing of level 1 whose sequence an output takes over: both stay listed under one name, and the file of that
      name now holds the new table and nothing of the old one. */
  ghost predicate Overwritten(old1: R.SSTableInfo, job: R.Job, j: nat, es: seq<Event>, files: map<string, seq<byte>>,
      l1: seq<R.SSTableInfo>)
    requires F.WellFormed(job.filter)
  {
    && old1 in l1 && R.InfoAt(job, j, es) in l1 && old1.path == R.PathAt(job, j)
    && old1.path in files && files[old1.path] == FileOf(R.RecipeAt(job, j), es)
  }

  lemma {:induction false} SharedName(files0: map<string, seq<byte>>, l0: seq<R.SSTableInfo>, l1: seq<R.SSTableInfo>,
      job: R.Job, c: seq<seq<Event>>, files: map<string, seq<byte>>, levels: seq<seq<R.SSTableInfo>>, i: nat, j: nat)
    requires F.WellFormed(job.filter) && job.dir == "l1" && job.level == 1 && job.sequence + |c| < TWO_64
    requires Replaced(files0, l0, l1, job, c, files, levels)
    requires forall x :: 0 <= x < |l0| ==> l0[x].path == FlushPath(l0[x].meta.sequence)
    requires i < |l1| && j < |c| && l1[i].path == OutputPath("l1", 1, l1[i].meta.sequence)
    requires l1[i].meta.sequence == R.SequenceAt(job, j)
    ensures Overwritten(l1[i], job, j, c[j], files, levels[1])
  {
    hide *;
    var m, path := l1 + R.Outputs(job, c), R.PathAt(job, j);
    ReplacedParts(files0, l0, l1, job, c, files, levels);
    WrittenAt(files0, job, c, j);
    PathIs(job, j);
    forall x | 0 <= x < |l0| ensures l0[x].path != path {
      FlushAndOutputDiffer(l0[x].meta.sequence, 1, l1[i].meta.sequence);
    }
    DeletedKeeps(R.Written(files0, job, c), l0, path);
    SortInfosMember(m);
    assert m[i] == l1[i] && m[|l1| + j] == R.InfoAt(job, j, c[j]);
    IsOverwritten(l1[i], job, j, c[j], files, levels[1]);
  }

  lemma {:induction false} ReplacedParts(files0: map<string, seq<byte>>, l0: seq<R.SSTableInfo>, l1: seq<R.SSTableInfo>,
      job: R.Job, c: seq<seq<Event>>, files: map<string, seq<byte>>, levels: seq<seq<R.SSTableInfo>>)
    requires F.WellFormed(job.filter) && Replaced(files0, l0, l1, job, c, files, levels)
    ensures files == Deleted(R.Written(files0, job, c), l0) && |levels| == 4
            && levels[1] == SortInfos(l1 + R.Outputs(job, c))
  {
    hide Deleted;
    hide SortInfos;
    hide R.Written;
    hide R.Outputs;
  }

  lemma {:induction false} IsOverwritten(old1: R.SSTableInfo, job: R.Job, j: nat, es: seq<Event>,
      files: map<string, seq<byte>>, l1: seq<R.SSTableInfo>)
    requires F.WellFormed(job.filter) && old1 in l1 && R.InfoAt(job, j, es) in l1 && old1.path == R.PathAt(job, j)
    requires old1.path in files && files[old1.path] == FileOf(R.RecipeAt(job, j), es)
    ensures Overwritten(old1, job, j, es, files, l1)
  {
    hide R.InfoAt;
    hide R.PathAt;
    hide FileOf;
    hide R.RecipeAt;
  }

  /** Whoever opens the shared name, through the old listing or the new, scans the new table. */
  lemma {:induction false} OverwrittenScans<T>(old1: R.SSTableInfo, job: R.Job, j: nat, es: seq<Event>,
      files: map<string, seq<byte>>, l1: seq<R.SSTableInfo>, lo: Key, hi: Key, s: T, f: (T, Event) -> E.Turn<T>,
      scan: S.Scan<T>)
    requires F.WellFormed(job.filter) && Overwritten(old1, job, j, es, files, l1) && |es| < TWO_32 && E.Sorted(es)
    requires OpenTable(files[old1.path]).Ok? && S.ScanResult(OpenTable(files[old1.path]).value, lo, hi, s, f, scan)
    ensures scan == S.Scan(E.Feed(E.InRange(es, lo, hi), s, f), true)
  {
    var r := R.RecipeAt(job, j);
    RecipeFine(job, j);
    Flushable(Stored(r, es));
    hide *;
    S.FileScan(files[old1.path], r, es, OpenTable(files[old1.path]).value, lo, hi, s, f, scan);
  }

  lemma {:induction false} ReplacedInOrder(files0: map<string, seq<byte>>, l0: seq<R.SSTableInfo>,
      l1: seq<R.SSTableInfo>, job: R.Job, c: seq<seq<Event>>, files: map<string, seq<byte>>,
      levels: seq<seq<R.SSTableInfo>>)
    requires F.WellFormed(job.filter) && Replaced(files0, l0, l1, job, c, files, levels)
    ensures |levels| == 4 && InOrder(levels[1])
  {
    SortInfosSorts(l1 + R.Outputs(job, c));
    hide SortInfos;
    hide InOrder;
  }

  /** Every listing whose sequence an output takes over. */
  ghost predicate AllOverwritten(l1: seq<R.SSTableInfo>, job: R.Job, c: seq<seq<Event>>, files: map<string, seq<byte>>,
      l1': seq<R.SSTableInfo>)
    requires F.WellFormed(job.filter)
  {
    forall i: nat, j: nat :: i < |l1| && j < |c| && l1[i].meta.sequence == R.SequenceAt(job, j)
      ==> Overwritten(l1[i], job, j, c[j], files, l1')
  }

  lemma {:induction false} SharedNames(files0: map<string, seq<byte>>, l0: seq<R.SSTableInfo>, l1: seq<R.SSTableInfo>,
      job: R.Job, c: seq<seq<Event>>, files: map<string, seq<byte>>, levels: seq<seq<R.SSTableInfo>>)
    requires F.WellFormed(job.filter) && job.dir == "l1" && job.level == 1 && job.sequence + |c| < TWO_64
    requires Replaced(files0, l0, l1, job, c, files, levels)
    requires forall x :: 0 <= x < |l0| ==> l0[x].path == FlushPath(l0[x].meta.sequence)
    requires forall x :: 0 <= x < |l1| ==> l1[x].path == OutputPath("l1", 1, l1[x].meta.sequence)
    ensures |levels| == 4 && AllOverwritten(l1, job, c, files, levels[1])
  {
    hide OutputPath;
    hide FlushPath;
    hide F.WellFormed;
    hide Overwritten;
    hide R.SequenceAt;
    assert |levels| == 4;
    hide Replaced;
    forall i: nat, j: nat | i < |l1| && j < |c| && l1[i].meta.sequence == R.SequenceAt(job, j)
      ensures Overwritten(l1[i], job, j, c[j], files, levels[1])
    {
      SharedName(files0, l0, l1, job, c, files, levels, i, j);
    }
  }
}
