/** Opening: the tables found in each directory, and the events that the log replays. */
module DBOpens {
  import opened Bytes
  import opened Core
  import opened Compactions
  import opened DBCompact
  import opened DBModel
  import opened DBTables
  import opened Paths
  import opened TableFormat
  import opened Wrappers
  import E = Events
  import IO = TableIO
  import L = Wal
  import R = CompactionRuns
  import Rec = Recoveries
  import S = SSTables
  import W = WalRuns

  // ---- what a directory holds ----

  /** A file of the directory with the extension of tables. */
  predicate TableIn(path: string, dir: string) {
    |dir| + 5 < |path| && path[..|dir| + 1] == dir + "/" && path[|path| - 4..] == ".sst"
  }

  /** The tables in the directory are those listed, each under a name of its own. */
  ghost predicate Exactly(files: map<string, seq<byte>>, dir: string, infos: seq<R.SSTableInfo>) {
    DistinctPaths(infos) && forall p :: p in files && TableIn(p, dir) <==> InLevel(p, infos)
  }

  lemma {:induction false} FlushedInLevel0(n: nat)
    ensures TableIn(FlushPath(n), "l0") && !TableIn(FlushPath(n), "l1")
    ensures !TableIn(FlushPath(n), "l2") && !TableIn(FlushPath(n), "l3")
  {
    hide Padded;
    var p := FlushPath(n);
    assert p[1] == '0' && p[..3] == "l0/" && p[|p| - 4..] == ".sst";
    OtherDirectory(p, '0', '1');
    OtherDirectory(p, '0', '2');
    OtherDirectory(p, '0', '3');
  }

  lemma {:induction false} CompactedInLevel1(n: nat)
    ensures TableIn(OutputPath("l1", 1, n), "l1") && !TableIn(OutputPath("l1", 1, n), "l0")
    ensures !TableIn(OutputPath("l1", 1, n), "l2") && !TableIn(OutputPath("l1", 1, n), "l3")
  {
    hide Padded;
    var p := OutputPath("l1", 1, n);
    assert p[1] == '1' && p[..3] == "l1/" && p[|p| - 4..] == ".sst";
    OtherDirectory(p, '1', '0');
    OtherDirectory(p, '1', '2');
    OtherDirectory(p, '1', '3');
  }

  lemma {:induction false} OtherDirectory(p: string, mine: char, other: char)
    requires |p| > 3 && p[1] == mine != other
    ensures !TableIn(p, ['l', other])
  {
    assert p[..3][1] == mine && (['l', other] + "/")[1] == other;
  }

  /** Without a name collision, each directory of a database holds exactly the tables that its level lists. */
  lemma {:induction false} DirectoriesAreLevels(files: map<string, seq<byte>>, levels: seq<seq<R.SSTableInfo>>,
                                                stored: map<string, Stored>, q: u64)
    requires LevelsFine(files, levels, stored, q)
    ensures Exactly(files, "l0", levels[0]) && Exactly(files, "l1", levels[1])
    ensures Exactly(files, "l2", levels[2]) && Exactly(files, "l3", levels[3])
  {
    hide *;
    LevelsParts(files, levels, stored, q);
    TidyParts(files, levels[0], levels[1]);
    forall p ensures p in files && TableIn(p, "l0") <==> InLevel(p, levels[0])
             ensures p in files && TableIn(p, "l1") <==> InLevel(p, levels[1])
             ensures !(p in files && TableIn(p, "l2")) && !(p in files && TableIn(p, "l3"))
    {
      PathLies(files, levels[0], levels[1], stored, q, p);
    }
    NoneListed(files, "l2");
    NoneListed(files, "l3");
    IsExactly(files, "l0", levels[0]);
    IsExactly(files, "l1", levels[1]);
  }

  lemma {:induction false} TidyParts(files: map<string, seq<byte>>, l0: seq<R.SSTableInfo>, l1: seq<R.SSTableInfo>)
    requires Tidy(files, l0, l1)
    ensures DistinctPaths(l0) && DistinctPaths(l1) && forall p :: p in files ==> InLevel(p, l0) || InLevel(p, l1)
  {
    hide DistinctPaths;
    hide InLevel;
  }

  lemma {:induction false} IsExactly(files: map<string, seq<byte>>, dir: string, infos: seq<R.SSTableInfo>)
    requires DistinctPaths(infos) && forall p :: p in files && TableIn(p, dir) <==> InLevel(p, infos)
    ensures Exactly(files, dir, infos)
  {
    hide DistinctPaths;
    hide InLevel;
    hide TableIn;
  }

  lemma {:induction false} NoneListed(files: map<string, seq<byte>>, dir: string)
    requires forall p :: !(p in files && TableIn(p, dir))
    ensures Exactly(files, dir, [])
  {
    hide TableIn;
  }

  lemma {:induction false} PathLies(files: map<string, seq<byte>>, l0: seq<R.SSTableInfo>, l1: seq<R.SSTableInfo>,
                                    stored: map<string, Stored>, q: u64, p: string)
    requires LevelFine(files, l0, stored) && LevelFine(files, l1, stored) && NamesFine(l0, l1, stored, q)
    requires p in files ==> InLevel(p, l0) || InLevel(p, l1)
    ensures p in files && TableIn(p, "l0") <==> InLevel(p, l0)
    ensures p in files && TableIn(p, "l1") <==> InLevel(p, l1)
    ensures p in files ==> !TableIn(p, "l2") && !TableIn(p, "l3")
  {
    hide *;
    if InLevel(p, l0) {
      var n := LevelName0(files, l0, l1, stored, q, p);
      FlushedInLevel0(n);
    }
    if InLevel(p, l1) {
      var n := LevelName1(files, l0, l1, stored, q, p);
      CompactedInLevel1(n);
    }
  }

  lemma {:induction false} LevelName0(files: map<string, seq<byte>>, l0: seq<R.SSTableInfo>, l1: seq<R.SSTableInfo>,
                                      stored: map<string, Stored>, q: u64, p: string) returns (n: nat)
    requires LevelFine(files, l0, stored) && NamesFine(l0, l1, stored, q) && InLevel(p, l0)
    ensures p in files && p == FlushPath(n)
  {
    hide FlushPath;
    hide OutputPath;
    var i :| 0 <= i < |l0| && l0[i].path == p;
    n := l0[i].meta.sequence;
  }

  lemma {:induction false} LevelName1(files: map<string, seq<byte>>, l0: seq<R.SSTableInfo>, l1: seq<R.SSTableInfo>,
                                      stored: map<string, Stored>, q: u64, p: string) returns (n: nat)
    requires LevelFine(files, l1, stored) && NamesFine(l0, l1, stored, q) && InLevel(p, l1)
    ensures p in files && p == OutputPath("l1", 1, n)
  {
    hide FlushPath;
    hide OutputPath;
    var i :| 0 <= i < |l1| && l1[i].path == p;
    n := l1[i].meta.sequence;
  }

  // ---- loading a level ----

  /** What the reader knows of the file, unless it does not open. */
  method OpenFile(path: string, contents: seq<byte>) returns (info: Option<R.SSTableInfo>)
    ensures info == match OpenTable(contents)
                    case Ok(t) => Some(R.SSTableInfo(path, t.meta, |contents|))
                    case Err => None
  {
    hide *;
    var reader := new IO.SSTableReader(path, contents, null);
    var ok := reader.LoadFooterAndIndex();
    if !ok {
      return None;
    }
    MetaRead(reader);
    info := Some(R.SSTableInfo(path, reader.meta, |contents|));
  }

  lemma {:induction false} MetaRead(reader: IO.SSTableReader)
    ensures reader.Value().meta == reader.meta
  {
  }

  lemma {:induction false} OpensAsListed(files: map<string, seq<byte>>, infos: seq<R.SSTableInfo>,
      stored: map<string, Stored>, dir: string, path: string) returns (x: R.SSTableInfo)
    requires LevelFine(files, infos, stored) && Exactly(files, dir, infos) && path in files && TableIn(path, dir)
    ensures x in infos && x.path == path && x.size == |files[path]|
    ensures OpenTable(files[path]).Ok? && OpenTable(files[path]).value.meta == x.meta
  {
    var i :| 0 <= i < |infos| && infos[i].path == path;
    x := infos[i];
    var t := stored[path];
    hide *;
    FineAt(files, infos, stored, i);
    HeldParts(files, x, t);
    HeldSize(files, x, t);
    S.FileOpens(files[path], t.r, t.es);
    TableMeta(t.r, t.es);
  }

  lemma {:induction false} HeldSize(files: map<string, seq<byte>>, info: R.SSTableInfo, t: Stored)
    requires R.Holding(files, info, t.r, t.es)
    ensures info.path in files && info.size == |files[info.path]|
  {
    hide S.IsFile;
  }

  lemma {:induction false} TableMeta(r: Recipe, es: seq<Event>)
    requires Fits(r, es)
    ensures TableOf(r, es).meta == MetaOf(r, es)
  {
    hide Pack;
    hide KeyFilter;
    hide BlockBytes;
    hide EntriesOf;
  }

  /** Every file not left to visit is found if the level lists it, and nothing else is found. */
  ghost predicate Loading(left: set<string>, found: seq<R.SSTableInfo>, infos: seq<R.SSTableInfo>) {
    && DistinctPaths(found) && DistinctPaths(infos)
    && (forall x :: x in found ==> x in infos && x.path !in left)
    && forall x :: x in infos ==> x.path in left || x in found
  }

  lemma {:induction false} LoadingStarts(files: map<string, seq<byte>>, dir: string, infos: seq<R.SSTableInfo>)
    requires Exactly(files, dir, infos)
    ensures Loading(files.Keys, [], infos)
  {
    hide TableIn;
    forall x | x in infos ensures x.path in files {
      assert InLevel(x.path, infos);
    }
  }

  lemma {:induction false} LoadedOne(left: set<string>, found: seq<R.SSTableInfo>, infos: seq<R.SSTableInfo>,
      x: R.SSTableInfo)
    requires Loading(left, found, infos) && x in infos && x.path in left
    ensures Loading(left - {x.path}, found + [x], infos)
  {
    forall y | y in infos ensures y.path in left - {x.path} || y in found + [x] {
      if y.path == x.path {
        SamePath(infos, x, y);
      }
    }
  }

  lemma {:induction false} SamePath(infos: seq<R.SSTableInfo>, x: R.SSTableInfo, y: R.SSTableInfo)
    requires DistinctPaths(infos) && x in infos && y in infos && x.path == y.path
    ensures x == y
  {
    var i :| 0 <= i < |infos| && infos[i] == x;
    var j :| 0 <= j < |infos| && infos[j] == y;
    assert i <= j && j <= i;
  }

  lemma {:induction false} SkippedOne(files: map<string, seq<byte>>, dir: string, left: set<string>,
      found: seq<R.SSTableInfo>, infos: seq<R.SSTableInfo>, path: string)
    requires Exactly(files, dir, infos) && Loading(left, found, infos) && !TableIn(path, dir)
    ensures Loading(left - {path}, found, infos)
  {
    hide TableIn;
    forall x | x in infos ensures x.path != path {
      assert InLevel(x.path, infos);
    }
  }

  lemma {:induction false} LoadedAll(found: seq<R.SSTableInfo>, infos: seq<R.SSTableInfo>)
    requires Loading({}, found, infos)
    ensures DistinctPaths(found) && (forall x :: x in found <==> x in infos) && multiset(found) == multiset(infos)
  {
    forall x ensures multiset(found)[x] == multiset(infos)[x] {
      OncePerPath(found, x);
      OncePerPath(infos, x);
    }
  }

  lemma {:induction false} OncePerPath(l: seq<R.SSTableInfo>, x: R.SSTableInfo)
    requires DistinctPaths(l)
    ensures multiset(l)[x] == if x in l then 1 else 0
  {
    if l != [] {
      OncePerPath(l[1..], x);
      assert l == [l[0]] + l[1..];
      assert forall j :: 1 <= j < |l| ==> l[0].path != l[j].path;
    }
  }

  /** The directory is read in any order; files that do not open are skipped. */
  method LoadLevel(disk: R.Disk, dir: string, ghost infos: seq<R.SSTableInfo>, ghost stored: map<string, Stored>)
      returns (found: seq<R.SSTableInfo>)
    requires LevelFine(disk.files, infos, stored) && Exactly(disk.files, dir, infos)
    ensures DistinctPaths(found) && (forall x :: x in found <==> x in infos) && multiset(found) == multiset(infos)
  {
    hide *;
    found := [];
    var left := disk.files.Keys;
    LoadingStarts(disk.files, dir, infos);
    while left != {}
      invariant left <= disk.files.Keys && Loading(left, found, infos)
      decreases |left|
    {
      var path :| path in left;
      if TableIn(path, dir) {
        ghost var x := OpensAsListed(disk.files, infos, stored, dir, path);
        LoadedOne(left, found, infos, x);
        var info := OpenFile(path, disk.files[path]);
        if info.Some? {
          found := found + [info.value];
        }
      } else {
        SkippedOne(disk.files, dir, left, found, infos, path);
      }
      left := left - {path};
    }
    LoadedAll(found, infos);
  }

  // ---- the levels as found ----

  lemma {:induction false} PermutedView(a: seq<R.SSTableInfo>, b: seq<R.SSTableInfo>, stored: map<string, Stored>)
    requires multiset(a) == multiset(b)
    requires forall i :: 0 <= i < |a| ==> a[i].path in stored
    requires forall i :: 0 <= i < |b| ==> b[i].path in stored
    ensures multiset(ViewOf(a, stored)) == multiset(ViewOf(b, stored))
    decreases |b|
  {
    if b == [] {
      assert |multiset(a)| == 0;
    } else {
      var c, x, d, f := LastTaken(a, b);
      hide *;
      PartsListed(c, x, d, stored);
      assert f + [x] + [] == b;
      PartsListed(f, x, [], stored);
      PermutedView(c + d, f, stored);
      ViewAround(c, x, d, stored);
      ViewSnoc(f, x, stored);
    }
  }

  /** The last table of one list, and what is around it in the other. */
  lemma {:induction false} LastTaken(a: seq<R.SSTableInfo>, b: seq<R.SSTableInfo>)
      returns (c: seq<R.SSTableInfo>, x: R.SSTableInfo, d: seq<R.SSTableInfo>, f: seq<R.SSTableInfo>)
    requires multiset(a) == multiset(b) && b != []
    ensures a == c + [x] + d && b == f + [x] && multiset(c + d) == multiset(f)
  {
    var n := |b| - 1;
    x := b[n];
    assert x in multiset(b);
    var i :| 0 <= i < |a| && a[i] == x;
    c, d, f := a[..i], a[i + 1..], b[..n];
    assert a == c + [x] + d && b == f + [x];
    OneLess(c, x, d, f);
  }

  lemma {:induction false} PartsListed(c: seq<R.SSTableInfo>, x: R.SSTableInfo, d: seq<R.SSTableInfo>,
      stored: map<string, Stored>)
    requires forall i :: 0 <= i < |c + [x] + d| ==> (c + [x] + d)[i].path in stored
    ensures x.path in stored
    ensures forall i :: 0 <= i < |c| ==> c[i].path in stored
    ensures forall i :: 0 <= i < |d| ==> d[i].path in stored
    ensures forall i :: 0 <= i < |c + d| ==> (c + d)[i].path in stored
  {
    var a := c + [x] + d;
    assert a[|c|] == x;
    assert forall i :: 0 <= i < |c| ==> a[i] == c[i];
    assert forall i :: 0 <= i < |d| ==> a[|c| + 1 + i] == d[i];
  }

  lemma {:induction false} OneLess<T>(a: seq<T>, x: T, b: seq<T>, l: seq<T>)
    requires multiset(a + [x] + b) == multiset(l + [x])
    ensures multiset(a + b) == multiset(l)
  {
    assert multiset(a + b) + multiset{x} == multiset(a + [x] + b);
    assert multiset(l) + multiset{x} == multiset(l + [x]);
    assert multiset(a + b) == multiset(a + b) + multiset{x} - multiset{x};
  }

  lemma {:induction false} ViewAround(c: seq<R.SSTableInfo>, x: R.SSTableInfo, d: seq<R.SSTableInfo>,
      stored: map<string, Stored>)
    requires x.path in stored
    requires forall i :: 0 <= i < |c| ==> c[i].path in stored
    requires forall i :: 0 <= i < |d| ==> d[i].path in stored
    ensures var v := Input(x.meta.sequence, stored[x.path].es);
            multiset(ViewOf(c + [x] + d, stored)) == multiset(ViewOf(c + d, stored)) + multiset{v}
  {
    var v := Input(x.meta.sequence, stored[x.path].es);
    assert ViewOf(c + [x] + d, stored) == ViewOf(c, stored) + [v] + ViewOf(d, stored);
    assert ViewOf(c + d, stored) == ViewOf(c, stored) + ViewOf(d, stored);
  }

  /** Only the listed files matter to a new object. */
  ghost function Only(stored: map<string, Stored>, l0: seq<R.SSTableInfo>,
      l1: seq<R.SSTableInfo>): map<string, Stored> {
    map p | p in stored && (InLevel(p, l0) || InLevel(p, l1)) :: stored[p]
  }

  /** Above every sequence that names a listed level-0 table. */
  ghost function Bound(l0: seq<R.SSTableInfo>, q: u64): u64 {
    if l0 == [] then 1 else q
  }

  lemma {:induction false} OnlyListed(files: map<string, seq<byte>>, l0: seq<R.SSTableInfo>, l1: seq<R.SSTableInfo>,
                                      stored: map<string, Stored>, q: u64)
    requires LevelsFine(files, [l0, l1, [], []], stored, q)
    ensures var t := Only(stored, l0, l1);
            && LevelsFine(files, [l0, l1, [], []], t, Bound(l0, q))
            && ViewOf(l0, t) == ViewOf(l0, stored) && ViewOf(l1, t) == ViewOf(l1, stored)
  {
    hide *;
    var t := Only(stored, l0, l1);
    LevelsParts(files, [l0, l1, [], []], stored, q);
    OnlyIs(stored, l0, l1);
    ListedPaths(l0);
    ListedPaths(l1);
    OnlyFits(stored, t);
    FineAsBefore(files, l0, stored, t);
    FineAsBefore(files, l1, stored, t);
    OnlyNames(l0, l1, stored, q);
    LevelsWhole(files, [l0, l1, [], []], t, Bound(l0, q));
  }

  lemma {:induction false} OnlyIs(stored: map<string, Stored>, l0: seq<R.SSTableInfo>, l1: seq<R.SSTableInfo>)
    ensures var t := Only(stored, l0, l1);
            && (forall p :: p in t ==> p in stored && t[p] == stored[p])
            && forall p :: p in stored && (InLevel(p, l0) || InLevel(p, l1)) ==> p in t
  {
    hide InLevel;
  }

  lemma {:induction false} ListedPaths(l: seq<R.SSTableInfo>)
    ensures forall i :: 0 <= i < |l| ==> InLevel(l[i].path, l)
  {
  }

  lemma {:induction false} OnlyFits(stored: map<string, Stored>, t: map<string, Stored>)
    requires AllFit(stored) && forall p :: p in t ==> p in stored && t[p] == stored[p]
    ensures AllFit(t)
  {
    hide Fits;
  }

  lemma {:induction false} FineAsBefore(files: map<string, seq<byte>>, l: seq<R.SSTableInfo>,
      stored: map<string, Stored>, t: map<string, Stored>)
    requires LevelFine(files, l, stored) && (forall p :: p in t ==> p in stored && t[p] == stored[p])
    requires forall i :: 0 <= i < |l| ==> l[i].path in t
    ensures LevelFine(files, l, t) && ViewOf(l, t) == ViewOf(l, stored)
  {
    hide R.Holding;
  }

  lemma {:induction false} OnlyNames(l0: seq<R.SSTableInfo>, l1: seq<R.SSTableInfo>, stored: map<string, Stored>,
      q: u64)
    requires NamesFine(l0, l1, stored, q)
    ensures NamesFine(l0, l1, Only(stored, l0, l1), Bound(l0, q))
  {
    hide FlushPath;
    hide OutputPath;
    hide Spent;
  }

  /** The order in which a level lists its tables does not matter. */
  lemma {:induction false} LevelsReordered(files: map<string, seq<byte>>, l0: seq<R.SSTableInfo>,
      l1: seq<R.SSTableInfo>, m0: seq<R.SSTableInfo>, m1: seq<R.SSTableInfo>, stored: map<string, Stored>, q: u64)
    requires LevelsFine(files, [l0, l1, [], []], stored, q) && DistinctPaths(m0) && DistinctPaths(m1)
    requires (forall x :: x in m0 <==> x in l0) && forall x :: x in m1 <==> x in l1
    ensures LevelsFine(files, [m0, m1, [], []], stored, q)
  {
    hide *;
    LevelsParts(files, [l0, l1, [], []], stored, q);
    FineReordered(files, l0, m0, stored);
    FineReordered(files, l1, m1, stored);
    NamesReordered(l0, l1, m0, m1, stored, q);
    TidyReordered(files, l0, l1, m0, m1);
    LevelsWhole(files, [m0, m1, [], []], stored, q);
  }

  lemma {:induction false} FineReordered(files: map<string, seq<byte>>, l: seq<R.SSTableInfo>, m: seq<R.SSTableInfo>,
                                         stored: map<string, Stored>)
    requires LevelFine(files, l, stored) && forall x :: x in m ==> x in l
    ensures LevelFine(files, m, stored)
  {
    hide R.Holding;
    assert forall i :: 0 <= i < |m| ==> m[i] in l;
  }

  lemma {:induction false} InLevelReordered(p: string, l: seq<R.SSTableInfo>, m: seq<R.SSTableInfo>)
    requires InLevel(p, l) && forall x :: x in l ==> x in m
    ensures InLevel(p, m)
  {
    var i :| 0 <= i < |l| && l[i].path == p;
    assert l[i] in m;
  }

  lemma {:induction false} NamesReordered(l0: seq<R.SSTableInfo>, l1: seq<R.SSTableInfo>, m0: seq<R.SSTableInfo>,
      m1: seq<R.SSTableInfo>, stored: map<string, Stored>, q: u64)
    requires NamesFine(l0, l1, stored, q)
    requires (forall x :: x in m0 ==> x in l0) && forall x :: x in m1 <==> x in l1
    ensures NamesFine(m0, m1, stored, q)
  {
    hide FlushPath;
    hide OutputPath;
    hide Spent;
    assert forall i :: 0 <= i < |m0| ==> m0[i] in l0;
    assert forall i :: 0 <= i < |m1| ==> m1[i] in l1;
    forall p | p in stored ensures Spent(p, q) || InLevel(p, m1) {
      if InLevel(p, l1) {
        InLevelReordered(p, l1, m1);
      }
    }
  }

  lemma {:induction false} TidyReordered(files: map<string, seq<byte>>, l0: seq<R.SSTableInfo>, l1: seq<R.SSTableInfo>,
      m0: seq<R.SSTableInfo>, m1: seq<R.SSTableInfo>)
    requires Tidy(files, l0, l1) && DistinctPaths(m0) && DistinctPaths(m1)
    requires (forall x :: x in l0 ==> x in m0) && forall x :: x in l1 ==> x in m1
    ensures Tidy(files, m0, m1)
  {
    hide DistinctPaths;
    hide InLevel;
    forall p | p in files ensures InLevel(p, m0) || InLevel(p, m1) {
      if InLevel(p, l0) {
        InLevelReordered(p, l0, m0);
      } else {
        InLevelReordered(p, l1, m1);
      }
    }
  }

  /** The levels of the closed or crashed database and what its files hold. */
  ghost predicate Left(files: map<string, seq<byte>>, s: State, l0: seq<R.SSTableInfo>, l1: seq<R.SSTableInfo>,
                       stored: map<string, Stored>, q: u64) {
    LevelsFine(files, [l0, l1, [], []], stored, q) && s.l0 == ViewOf(l0, stored) && s.l1 == ViewOf(l1, stored)
  }

  lemma {:induction false} LeftParts(files: map<string, seq<byte>>, s: State, l0: seq<R.SSTableInfo>,
      l1: seq<R.SSTableInfo>, stored: map<string, Stored>, q: u64)
    requires Left(files, s, l0, l1, stored, q)
    ensures LevelsFine(files, [l0, l1, [], []], stored, q)
    ensures (forall i :: 0 <= i < |l0| ==> l0[i].path in stored) && s.l0 == ViewOf(l0, stored)
    ensures (forall i :: 0 <= i < |l1| ==> l1[i].path in stored) && s.l1 == ViewOf(l1, stored)
  {
    LevelsParts(files, [l0, l1, [], []], stored, q);
    hide LevelsFine;
  }

  /** Every level is loaded from its directory and sorted by sequence. */
  method LoadLevels(disk: R.Disk, ghost s: State, ghost l0: seq<R.SSTableInfo>, ghost l1: seq<R.SSTableInfo>,
                    ghost stored: map<string, Stored>, ghost q: u64)
      returns (levels: seq<seq<R.SSTableInfo>>, ghost d0: seq<Input>, ghost d1: seq<Input>)
    requires Left(disk.files, s, l0, l1, stored, q)
    ensures LevelsFine(disk.files, levels, Only(stored, l0, l1), Bound(l0, q)) && Found(s, d0, d1)
    ensures forall i :: 0 <= i < |levels| ==> InOrder(levels[i])
    ensures ViewOf(levels[0], Only(stored, l0, l1)) == SortBySeq(d0)
    ensures ViewOf(levels[1], Only(stored, l0, l1)) == SortBySeq(d1)
  {
    hide *;
    LeftParts(disk.files, s, l0, l1, stored, q);
    LevelsParts(disk.files, [l0, l1, [], []], stored, q);
    DirectoriesAreLevels(disk.files, [l0, l1, [], []], stored, q);
    EmptyFine(disk.files, stored);
    var found0 := LoadLevel(disk, "l0", l0, stored);
    var found1 := LoadLevel(disk, "l1", l1, stored);
    var found2 := LoadLevel(disk, "l2", [], stored);
    var found3 := LoadLevel(disk, "l3", [], stored);
    levels := [SortInfos(found0), SortInfos(found1), SortInfos(found2), SortInfos(found3)];
    d0, d1 := AsFound(disk.files, s, l0, l1, found0, found1, stored, q);
    NothingFound(found2);
    NothingFound(found3);
    SortInfosSorts(found0);
    SortInfosSorts(found1);
    SortInfosSorts(found2);
    SortInfosSorts(found3);
  }

  lemma {:induction false} EmptyFine(files: map<string, seq<byte>>, stored: map<string, Stored>)
    ensures LevelFine(files, [], stored)
  {
  }

  lemma {:induction false} NothingFound(found: seq<R.SSTableInfo>)
    requires multiset(found) == multiset([])
    ensures SortInfos(found) == []
  {
    assert |multiset(found)| == 0;
  }

  lemma {:induction false} AsFound(files: map<string, seq<byte>>, s: State, l0: seq<R.SSTableInfo>,
      l1: seq<R.SSTableInfo>, f0: seq<R.SSTableInfo>, f1: seq<R.SSTableInfo>, stored: map<string, Stored>, q: u64)
      returns (d0: seq<Input>, d1: seq<Input>)
    requires Left(files, s, l0, l1, stored, q) && DistinctPaths(f0) && DistinctPaths(f1)
    requires (forall x :: x in f0 <==> x in l0) && multiset(f0) == multiset(l0)
    requires (forall x :: x in f1 <==> x in l1) && multiset(f1) == multiset(l1)
    ensures LevelsFine(files, [SortInfos(f0), SortInfos(f1), [], []], Only(stored, l0, l1), Bound(l0, q))
            && Found(s, d0, d1)
    ensures ViewOf(SortInfos(f0), Only(stored, l0, l1)) == SortBySeq(d0)
    ensures ViewOf(SortInfos(f1), Only(stored, l0, l1)) == SortBySeq(d1)
  {
    hide *;
    var t := Only(stored, l0, l1);
    LeftParts(files, s, l0, l1, stored, q);
    OnlyListed(files, l0, l1, stored, q);
    LevelsParts(files, [l0, l1, [], []], t, Bound(l0, q));
    AlsoListed(l0, f0, t);
    AlsoListed(l1, f1, t);
    PermutedView(f0, l0, t);
    PermutedView(f1, l1, t);
    d0, d1 := ViewOf(f0, t), ViewOf(f1, t);
    IsFound(s, d0, d1);
    SortInfosView(f0, t);
    SortInfosView(f1, t);
    SortDistinct(f0);
    SortDistinct(f1);
    LevelsReordered(files, l0, l1, SortInfos(f0), SortInfos(f1), t, Bound(l0, q));
  }

  lemma {:induction false} AlsoListed(l: seq<R.SSTableInfo>, f: seq<R.SSTableInfo>, stored: map<string, Stored>)
    requires (forall i :: 0 <= i < |l| ==> l[i].path in stored) && forall x :: x in f ==> x in l
    ensures forall i :: 0 <= i < |f| ==> f[i].path in stored
  {
    assert forall i :: 0 <= i < |f| ==> f[i] in l;
  }

  lemma {:induction false} IsFound(s: State, d0: seq<Input>, d1: seq<Input>)
    requires multiset(d0) == multiset(s.l0) && multiset(d1) == multiset(s.l1)
    ensures Found(s, d0, d1)
  {
  }

  // ---- the log ----

  lemma {:induction false} SurvivorsJoin(segments: seq<seq<Event>>)
    ensures Rec.EventsOf(W.Survivors(segments)) == Join(segments)
  {
    if segments != [] {
      var n := |segments| - 1;
      SurvivorsJoin(segments[..n]);
      EventsConcat(W.Survivors(segments[..n]), L.Offsets(segments[n], 0));
      assert Rec.EventsOf(L.Offsets(segments[n], 0)) == segments[n];
    }
  }

  lemma {:induction false} EventsConcat(a: seq<L.WalRecord>, b: seq<L.WalRecord>)
    ensures Rec.EventsOf(a + b) == Rec.EventsOf(a) + Rec.EventsOf(b)
  {
  }

  lemma {:induction false} ReplayedIsLedger(files: L.Dir, h: W.Ledger)
    requires W.Matches(W.Down(files), h)
    ensures h.segments != [] && Rec.EventsOf(W.Replay(files).records) == Join(h.segments)
  {
    hide W.MatchesDir;
    hide W.Replay;
    W.ReplayIsLedger(files, h);
    SurvivorsJoin(h.segments);
  }

  lemma {:induction false} ReopeningJoins(h: W.Ledger, maxBytes: nat)
    requires h.segments != []
    ensures Join(W.LedgerStep(h, W.Reopen, maxBytes).segments) == Join(h.segments)
  {
    assert (h.segments + [[]])[..|h.segments|] == h.segments;
  }

  lemma {:induction false} AppendingJoins(h: W.Ledger, e: Event, maxBytes: nat)
    requires h.segments != [] && h.up
    ensures Join(W.LedgerStep(h, W.Append(e), maxBytes).segments) == Join(h.segments) + [e]
  {
    var n := |h.segments| - 1;
    var s := W.SetLast(h, W.Last(h) + [e]);
    assert s[..n] == h.segments[..n];
    assert Join(s) == Join(h.segments[..n]) + (W.Last(h) + [e]);
    assert (s + [[]])[..|s|] == s;
  }

  /** The replay loop, over the run that the memtable holds. */
  method ReplayInto(records: seq<L.WalRecord>) returns (run: seq<Event>)
    ensures run == Overlay([], Rec.EventsOf(records)) && E.Sorted(run)
  {
    hide *;
    ghost var es := Rec.EventsOf(records);
    Rec.NothingLaid([], es);
    run := [];
    for i := 0 to |records|
      invariant run == Overlay([], es[..i])
    {
      Rec.OneLaid([], es, i);
      run := E.Upsert(run, records[i].event);
    }
    assert es[..|es|] == es;
    RunSorted(es);
  }

  lemma {:induction false} RunSorted(es: seq<Event>)
    ensures E.Sorted(Overlay([], es))
  {
    OverlaySorted([], es);
  }
}
