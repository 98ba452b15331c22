/** The persistent symbol table: names to ids and back, and the file that rebuilds them. */
module SymbolTables {
  import opened Bytes
  import opened Core

  type Name = seq<byte>

  datatype Entry = Entry(id: u32, name: Name)

  /** The length field is 16 bits wide; names below this length are recorded truthfully. */
  const NAME_LIMIT: nat := 65536

  // ---- the file ----

  function EncodeEntry(e: Entry): (s: seq<byte>)
    ensures |s| == 6 + |e.name|
  {
    EncodeLE(e.id, 4) + EncodeLE(|e.name| % NAME_LIMIT, 2) + e.name
  }

  function EncodeAll(es: seq<Entry>): seq<byte> {
    if es == [] then [] else EncodeEntry(es[0]) + EncodeAll(es[1..])
  }

  function NameLength(f: seq<byte>): nat
    requires |f| >= 6
  {
    DecodeLE(f[4..6])
  }

  /** The complete entries from the front; the first incomplete one ends the reading. */
  function Parse(f: seq<byte>): seq<Entry>
    decreases |f|
  {
    if |f| < 6 || |f| < 6 + NameLength(f) then []
    else [Entry(Read32(f, 0), f[6..6 + NameLength(f)])] + Parse(f[6 + NameLength(f)..])
  }

  lemma {:induction false} EntryFields(e: Entry, rest: seq<byte>)
    requires |e.name| < NAME_LIMIT
    ensures var f := EncodeEntry(e) + rest;
            && NameLength(f) == |e.name| && Read32(f, 0) == e.id
            && f[6..6 + |e.name|] == e.name && f[6 + |e.name|..] == rest
  {
    var f := EncodeEntry(e) + rest;
    Pow256Widths();
    assert f[0..4] == EncodeLE(e.id, 4);
    assert f[4..6] == EncodeLE(|e.name|, 2);
    Read32From(f, 0, e.id);
    LittleEndianRoundTrip(|e.name|, 2);
  }

  lemma {:induction false} ParseFirst(e: Entry, rest: seq<byte>)
    requires |e.name| < NAME_LIMIT
    ensures Parse(EncodeEntry(e) + rest) == [e] + Parse(rest)
  {
    EntryFields(e, rest);
    hide EncodeEntry;
    hide Read32;
    hide NameLength;
  }

  /** A torn entry is not read. */
  lemma {:induction false} ParseTorn(e: Entry, n: nat)
    requires |e.name| < NAME_LIMIT && n < |EncodeEntry(e)|
    ensures Parse(EncodeEntry(e)[..n]) == []
  {
    if n >= 6 {
      EntryFields(e, []);
      assert EncodeEntry(e) + [] == EncodeEntry(e);
      assert EncodeEntry(e)[..n][4..6] == EncodeEntry(e)[4..6];
    }
  }

  lemma {:induction false} ParseNext(f: seq<byte>, seen: seq<Entry>)
    requires |f| >= 6 && |f| >= 6 + NameLength(f)
    ensures var n := NameLength(f);
            seen + Parse(f) == seen + [Entry(Read32(f, 0), f[6..6 + n])] + Parse(f[6 + n..])
  {
    hide Read32;
    hide NameLength;
  }

  lemma {:induction false} NothingParsed()
    ensures Parse([]) == []
  {
  }

  /** How many entries lie whole within the first n bytes. */
  function Whole(es: seq<Entry>, n: nat): (k: nat)
    ensures k <= |es|
  {
    if es == [] || |EncodeEntry(es[0])| > n then 0 else 1 + Whole(es[1..], n - |EncodeEntry(es[0])|)
  }

  ghost predicate Short(es: seq<Entry>) {
    forall i :: 0 <= i < |es| ==> |es[i].name| < NAME_LIMIT
  }

  /** A file cut at any byte loads exactly its complete entries. */
  lemma {:induction false} CutLoadsWhole(es: seq<Entry>, n: nat)
    requires Short(es) && n <= |EncodeAll(es)|
    ensures Parse(EncodeAll(es)[..n]) == es[..Whole(es, n)]
    decreases |es|
  {
    hide EncodeEntry;
    hide Parse;
    if es != [] {
      var size := |EncodeEntry(es[0])|;
      if n < size {
        ParseTorn(es[0], n);
        assert EncodeAll(es)[..n] == EncodeEntry(es[0])[..n];
      } else {
        CutLoadsWhole(es[1..], n - size);
        assert EncodeAll(es)[..n] == EncodeEntry(es[0]) + EncodeAll(es[1..])[..n - size];
        ParseFirst(es[0], EncodeAll(es[1..])[..n - size]);
        assert es[..Whole(es, n)] == [es[0]] + es[1..][..Whole(es[1..], n - size)];
      }
    } else {
      NothingParsed();
    }
  }

  lemma {:induction false} WholeAll(es: seq<Entry>)
    ensures Whole(es, |EncodeAll(es)|) == |es|
  {
    if es != [] {
      WholeAll(es[1..]);
    }
  }

  lemma {:induction false} LoadsAll(es: seq<Entry>)
    requires Short(es)
    ensures Parse(EncodeAll(es)) == es
  {
    CutLoadsWhole(es, |EncodeAll(es)|);
    WholeAll(es);
    assert EncodeAll(es)[..|EncodeAll(es)|] == EncodeAll(es) && es[..|es|] == es;
  }

  lemma {:induction false} EncodeSnoc(es: seq<Entry>, e: Entry)
    ensures EncodeAll(es + [e]) == EncodeAll(es) + EncodeEntry(e)
  {
    hide EncodeEntry;
    if es == [] {
      assert [e][1..] == [];
      assert [] + [e] == [e];
    } else {
      EncodeSnoc(es[1..], e);
      assert (es + [e])[1..] == es[1..] + [e];
    }
  }

  // ---- appending behind what is there ----

  /** The file is whole entries and nothing else. */
  ghost predicate Clean(f: seq<byte>) {
    f == EncodeAll(Parse(f))
  }

  lemma {:induction false} ParsedShort(f: seq<byte>)
    ensures Short(Parse(f))
    decreases |f|
  {
    if |f| >= 6 && |f| >= 6 + NameLength(f) {
      Pow256Widths();
      ParsedShort(f[6 + NameLength(f)..]);
    }
  }

  lemma {:induction false} EntryBytes(f: seq<byte>)
    requires |f| >= 6 && |f| >= 6 + NameLength(f)
    ensures EncodeEntry(Entry(Read32(f, 0), f[6..6 + NameLength(f)])) == f[..6 + NameLength(f)]
  {
    var n := NameLength(f);
    Pow256Widths();
    hide EncodeLE;
    hide DecodeLE;
    hide Pow256;
    LittleEndianOnto(f[0..4]);
    LittleEndianOnto(f[4..6]);
    assert n < NAME_LIMIT;
    ThreeParts(f, n);
  }

  lemma {:induction false} ThreeParts(f: seq<byte>, n: nat)
    requires |f| >= 6 + n
    ensures f[0..4] + f[4..6] + f[6..6 + n] == f[..6 + n]
  {
  }

  /** What was parsed stands at the front of the file. */
  lemma {:induction false} ParsedLeads(f: seq<byte>)
    ensures EncodeAll(Parse(f)) <= f
    decreases |f|
  {
    hide EncodeEntry;
    if |f| >= 6 && |f| >= 6 + NameLength(f) {
      var n := NameLength(f);
      EntryBytes(f);
      ParsedLeads(f[6 + n..]);
      assert Parse(f)[1..] == Parse(f[6 + n..]);
      assert f == f[..6 + n] + f[6 + n..];
    }
  }

  lemma {:induction false} ParseBehind(es: seq<Entry>, rest: seq<byte>)
    requires Short(es)
    ensures Parse(EncodeAll(es) + rest) == es + Parse(rest)
  {
    hide EncodeEntry;
    hide Parse;
    if es == [] {
      assert EncodeAll(es) + rest == rest;
    } else {
      ParseBehind(es[1..], rest);
      ParseFirst(es[0], EncodeAll(es[1..]) + rest);
      assert EncodeAll(es) + rest == EncodeEntry(es[0]) + (EncodeAll(es[1..]) + rest);
      assert es == [es[0]] + es[1..];
    }
  }

  /** Behind a clean file, and only there, an appended entry is loaded and leaves the file clean. */
  lemma {:induction false} AppendLoadsIff(f: seq<byte>, e: Entry)
    requires |e.name| < NAME_LIMIT
    ensures Clean(f) <==> Parse(f + EncodeEntry(e)) == Parse(f) + [e] && Clean(f + EncodeEntry(e))
  {
    var es := Parse(f);
    ParsedShort(f);
    EncodeSnoc(es, e);
    hide EncodeEntry;
    hide Parse;
    hide EncodeAll;
    LoadsAll(es + [e]);
    SameFront(f, EncodeAll(es), EncodeEntry(e));
  }

  lemma {:induction false} SameFront<T>(a: seq<T>, b: seq<T>, c: seq<T>)
    ensures a + c == b + c <==> a == b
  {
    if a + c == b + c {
      assert a == (a + c)[..|a|] && b == (b + c)[..|a|];
    }
  }

  lemma {:induction false} SameBack<T>(a: seq<T>, b: seq<T>, c: seq<T>)
    ensures a + b == a + c <==> b == c
  {
    if a + b == a + c {
      assert b == (a + b)[|a|..] && c == (a + c)[|a|..];
    }
  }

  /** A file is clean exactly when every name appended to it is loaded again. */
  lemma {:induction false} EveryAppendLoadsIff(f: seq<byte>)
    ensures Clean(f) <==> forall e: Entry :: |e.name| < NAME_LIMIT ==> Parse(f + EncodeEntry(e)) == Parse(f) + [e]
  {
    forall e: Entry | Clean(f) && |e.name| < NAME_LIMIT ensures Parse(f + EncodeEntry(e)) == Parse(f) + [e] {
      AppendLoadsIff(f, e);
    }
    if !Clean(f) {
      var e := SwallowedAppend(f);
    }
  }

  lemma {:induction false} SwallowedAppend(f: seq<byte>) returns (e: Entry)
    requires !Clean(f)
    ensures |e.name| < NAME_LIMIT && Parse(f + EncodeEntry(e)) != Parse(f) + [e]
  {
    var es := Parse(f);
    ParsedLeads(f);
    ParsedShort(f);
    var tail := f[|EncodeAll(es)|..];
    assert f == EncodeAll(es) + tail;
    assert tail != [];
    e := Entry(if tail[0] == 0 then 1 else 0, []);
    hide EncodeEntry;
    hide EncodeAll;
    hide Parse;
    assert f + EncodeEntry(e) == EncodeAll(es) + (tail + EncodeEntry(e));
    ParseBehind(es, tail + EncodeEntry(e));
    SameBack(es, Parse(tail + EncodeEntry(e)), [e]);
    ParsedLeads(tail + EncodeEntry(e));
    if Parse(tail + EncodeEntry(e)) == [e] {
      FirstByte(e, tail);
    }
  }

  lemma {:induction false} FirstByte(e: Entry, tail: seq<byte>)
    requires tail != [] && EncodeAll([e]) <= tail + EncodeEntry(e)
    ensures tail[0] == e.id % 256
  {
    assert EncodeAll([e])[0] == EncodeEntry(e)[0] == ByteAt(e.id, 0);
    assert (tail + EncodeEntry(e))[0] == tail[0];
  }

  lemma {:induction false} WholeLeads(es: seq<Entry>, n: nat)
    requires n <= |EncodeAll(es)|
    ensures |EncodeAll(es[..Whole(es, n)])| <= n
    ensures forall k :: 0 <= k <= |es| && |EncodeAll(es[..k])| == n ==> |EncodeAll(es[..Whole(es, n)])| == n
    decreases |es|
  {
    hide EncodeEntry;
    if es != [] {
      var size := |EncodeEntry(es[0])|;
      if n >= size {
        WholeLeads(es[1..], n - size);
        assert es[..Whole(es, n)][1..] == es[1..][..Whole(es[1..], n - size)];
        forall k | 1 <= k <= |es| ensures |EncodeAll(es[..k])| == size + |EncodeAll(es[1..][..k - 1])| {
          assert es[..k][1..] == es[1..][..k - 1];
        }
      } else {
        forall k | 1 <= k <= |es| ensures |EncodeAll(es[..k])| >= size {
        }
      }
    }
  }

  /** A cut is harmless for what is appended later exactly when it falls between two entries. */
  lemma {:induction false} CutCleanIff(es: seq<Entry>, n: nat)
    requires Short(es) && n <= |EncodeAll(es)|
    ensures Clean(EncodeAll(es)[..n]) <==> exists k :: 0 <= k <= |es| && |EncodeAll(es[..k])| == n
  {
    var f := EncodeAll(es)[..n];
    CutLoadsWhole(es, n);
    WholeLeads(es, n);
    ParsedLeads(f);
    hide EncodeAll;
    hide Parse;
    hide Whole;
  }

  // ---- the maps ----

  datatype Names = Names(toId: map<Name, u32>, toName: map<u32, Name>, nextId: u32)

  const EMPTY: Names := Names(map[], map[], 1)

  /** Loading one entry; `next_id_` is 32 bits wide. */
  function Put(t: Names, e: Entry): Names {
    Names(t.toId[e.name := e.id], t.toName[e.id := e.name], if e.id >= t.nextId then (e.id + 1) % TWO_32 else t.nextId)
  }

  function Build(es: seq<Entry>): Names {
    if es == [] then EMPTY else Put(Build(es[..|es| - 1]), es[|es| - 1])
  }

  /** Ids and names are distinct, and no id is the last one there is. */
  ghost predicate Proper(es: seq<Entry>) {
    && (forall i, j :: 0 <= i < j < |es| ==> es[i].id != es[j].id && es[i].name != es[j].name)
    && (forall i :: 0 <= i < |es| ==> 1 <= es[i].id < 0xFFFF_FFFF)
  }

  /** The maps are mutually inverse, hold exactly the entries, and the next id lies above all of them. */
  ghost predicate Faithful(t: Names, es: seq<Entry>) {
    && (forall n :: n in t.toId ==> Entry(t.toId[n], n) in es)
    && (forall i :: i in t.toName ==> Entry(i, t.toName[i]) in es)
    && (forall e :: e in es ==>
          e.name in t.toId && t.toId[e.name] == e.id && e.id in t.toName && t.toName[e.id] == e.name)
    && (forall e :: e in es ==> e.id < t.nextId)
    && (t.nextId == 1 || exists e :: e in es && t.nextId == e.id + 1)
  }

  lemma {:induction false} BuildFaithful(es: seq<Entry>)
    requires Proper(es)
    ensures Faithful(Build(es), es)
  {
    hide *;
    if es == [] {
      EmptyFaithful();
    } else {
      var n := |es| - 1;
      LastProper(es);
      BuildFaithful(es[..n]);
      PutFaithful(Build(es[..n]), es[..n], es[n]);
      assert es == es[..n] + [es[n]];
      BuildSnoc(es[..n], es[n]);
    }
  }

  lemma {:induction false} EmptyFaithful()
    ensures Faithful(Build([]), [])
  {
  }

  lemma {:induction false} LastProper(es: seq<Entry>)
    requires Proper(es) && es != []
    ensures var x := es[|es| - 1];
            && Proper(es[..|es| - 1]) && 1 <= x.id < 0xFFFF_FFFF
            && forall e :: e in es[..|es| - 1] ==> e.id != x.id && e.name != x.name
  {
    var n := |es| - 1;
    forall e | e in es[..n] ensures e.id != es[n].id && e.name != es[n].name {
      var i :| 0 <= i < n && es[i] == e;
    }
  }

  lemma {:induction false} PutFaithful(t: Names, es: seq<Entry>, x: Entry)
    requires Faithful(t, es) && 1 <= x.id < 0xFFFF_FFFF
    requires forall e :: e in es ==> e.id != x.id && e.name != x.name
    ensures Faithful(Put(t, x), es + [x])
  {
    var u, all := Put(t, x), es + [x];
    assert x in all;
    assert forall e :: e in all <==> e in es || e == x;
    if x.id >= t.nextId {
      assert u.nextId == x.id + 1;
    } else if e :| e in es && t.nextId == e.id + 1 {
      assert e in all;
    }
  }

  /** Being faithful to the same entries, whatever their order, makes the tables equal. */
  lemma {:induction false} FaithfulUnique(t: Names, u: Names, es: seq<Entry>, ds: seq<Entry>)
    requires Faithful(t, es) && Faithful(u, ds) && forall e :: e in es <==> e in ds
    ensures t == u
  {
    assert t.toId == u.toId;
    assert t.toName == u.toName;
  }

  /** Rewriting the file in any order of the map rebuilds the same table. */
  lemma {:induction false} AnyOrderRebuilds(es: seq<Entry>, order: seq<Entry>)
    requires Proper(es) && Proper(order) && Short(order) && forall e :: e in es <==> e in order
    ensures Build(Parse(EncodeAll(order))) == Build(es)
  {
    LoadsAll(order);
    BuildFaithful(es);
    BuildFaithful(order);
    FaithfulUnique(Build(es), Build(order), es, order);
  }

  /** After a cut at any byte, every surviving name keeps its id, and the next id lies above all survivors. */
  lemma {:induction false} RestartKeepsIds(es: seq<Entry>, n: nat)
    requires Proper(es) && Short(es) && n <= |EncodeAll(es)|
    ensures var t := Build(Parse(EncodeAll(es)[..n]));
            && Faithful(t, es[..Whole(es, n)])
            && forall m :: m in t.toId ==> m in Build(es).toId && Build(es).toId[m] == t.toId[m]
  {
    var k := Whole(es, n);
    CutLoadsWhole(es, n);
    BuildFaithful(es[..k]);
    BuildFaithful(es);
    var t := Build(es[..k]);
    forall m | m in t.toId ensures m in Build(es).toId && Build(es).toId[m] == t.toId[m] {
      assert Entry(t.toId[m], m) in es;
    }
  }

  /** A name appended behind a torn entry is swallowed: appending does not repair the tail. */
  lemma {:induction false} TornTailSwallows()
    ensures var a, b := Entry(1, [65]), Entry(1, [66]);
            var file := EncodeEntry(a)[..6] + EncodeEntry(b);
            Parse(EncodeEntry(a)[..6]) == [] && Parse(file) == [Entry(1, [1])]
  {
    var a, b := Entry(1, [65]), Entry(1, [66]);
    ParseTorn(a, 6);
    var x, rest := Entry(1, [1]), [0, 0, 0, 1, 0, 66];
    ByteForms();
    assert EncodeEntry(a)[..6] + EncodeEntry(b) == EncodeEntry(x) + rest;
    ParseFirst(x, rest);
    assert rest[4..6] == [0, 66] && [0, 66][1..] == [66] && [66][1..] == [];
    assert NameLength(rest) == 256 * 66;
  }

  lemma {:induction false} ByteForms()
    ensures EncodeLE(1, 4) == [1, 0, 0, 0] && EncodeLE(1, 2) == [1, 0]
  {
    assert ByteAt(1, 0) == 1 && ByteAt(1, 1) == ByteAt(0, 0) && ByteAt(0, 0) == 0;
    assert ByteAt(1, 2) == ByteAt(0, 1) && ByteAt(0, 1) == ByteAt(0, 0);
    assert ByteAt(1, 3) == ByteAt(0, 2) && ByteAt(0, 2) == ByteAt(0, 1);
  }

  // ---- the table and its file ----

  datatype Symbols = Symbols(file: seq<byte>, names: Names)

  /** Opening loads the file and leaves its bytes as they are. */
  function Opened(f: seq<byte>): Symbols {
    Symbols(f, Build(Parse(f)))
  }

  /** A known name changes nothing; a new one takes the next id and is appended to the file. */
  function Interned(t: Symbols, name: Name): Symbols {
    if name in t.names.toId then t
    else
      var id := t.names.nextId;
      Symbols(t.file + EncodeEntry(Entry(id, name)),
              Names(t.names.toId[name := id], t.names.toName[id := name], (id + 1) % TWO_32))
  }

  /** An order in which the name map can be walked. */
  ghost predicate Walks(order: seq<Name>, toId: map<Name, u32>) {
    && (forall n :: n in toId <==> n in order)
    && forall i, j :: 0 <= i < j < |order| ==> order[i] != order[j]
  }

  function Listing(order: seq<Name>, toId: map<Name, u32>): (es: seq<Entry>)
    requires forall n :: n in order ==> n in toId
    ensures |es| == |order| && forall i :: 0 <= i < |es| ==> es[i] == Entry(toId[order[i]], order[i])
  {
    seq(|order|, i requires 0 <= i < |order| => Entry(toId[order[i]], order[i]))
  }

  /** The file rewritten from the name map. */
  function Rewritten(t: Symbols, order: seq<Name>): Symbols
    requires forall n :: n in order ==> n in t.names.toId
  {
    Symbols(EncodeAll(Listing(order, t.names.toId)), t.names)
  }

  /** Loading the file gives the table, and what is appended to it will be loaded. */
  ghost predicate Synced(t: Symbols) {
    Clean(t.file) && Proper(Parse(t.file)) && t.names == Build(Parse(t.file))
  }

  /** The maps are those of these entries, whatever the file holds. */
  ghost predicate Holds(t: Symbols, es: seq<Entry>) {
    Proper(es) && Short(es) && t.names == Build(es)
  }

  ghost predicate Consistent(t: Symbols) {
    exists es :: Holds(t, es)
  }

  lemma {:induction false} SyncedHolds(t: Symbols)
    requires Synced(t)
    ensures Holds(t, Parse(t.file)) && Consistent(t)
  {
    ParsedShort(t.file);
    hide Parse;
    hide Proper;
    hide Build;
    assert Holds(t, Parse(t.file));
  }

  /** An id is left for the name, and its length fits the file. */
  predicate Room(t: Symbols, name: Name) {
    |name| < NAME_LIMIT && (name in t.names.toId || t.names.nextId < 0xFFFF_FFFF)
  }

  lemma {:induction false} InternHolds(t: Symbols, es: seq<Entry>, name: Name)
    requires Holds(t, es) && Room(t, name)
    ensures var id := t.names.nextId;
            Holds(Interned(t, name), if name in t.names.toId then es else es + [Entry(id, name)])
    ensures name !in t.names.toId ==> t.names.nextId !in t.names.toName && t.names.nextId >= 1
  {
    var e := Entry(t.names.nextId, name);
    BuildFaithful(es);
    hide EncodeEntry;
    hide Faithful;
    hide Proper;
    hide Short;
    hide Build;
    hide Put;
    if name !in t.names.toId {
      NextProper(es, e);
      BuildSnoc(es, e);
      PutNext(Build(es), e);
      assert (e.id + 1) % TWO_32 == e.id + 1;
    }
  }

  lemma {:induction false} InternConsistent(t: Symbols, name: Name)
    requires Consistent(t) && Room(t, name)
    ensures Consistent(Interned(t, name))
  {
    var es :| Holds(t, es);
    InternHolds(t, es, name);
    hide Holds;
    hide Interned;
  }

  lemma {:induction false} InternSynced(t: Symbols, name: Name)
    requires Synced(t) && Room(t, name)
    ensures Synced(Interned(t, name))
  {
    var es, e := Parse(t.file), Entry(t.names.nextId, name);
    SyncedHolds(t);
    InternHolds(t, es, name);
    if name !in t.names.toId {
      AppendLoadsIff(t.file, e);
    }
    hide EncodeEntry;
    hide Parse;
    hide Proper;
    hide Build;
    hide Clean;
  }

  /** Rewriting the file puts it in step with the maps, whatever it held before. */
  lemma {:induction false} RewriteSyncs(t: Symbols, order: seq<Name>)
    requires Consistent(t) && Walks(order, t.names.toId)
    ensures Synced(Rewritten(t, order))
  {
    var es :| Holds(t, es);
    var listing := Listing(order, t.names.toId);
    ListingProper(order, t.names.toId, es);
    AnyOrderRebuilds(es, listing);
    LoadsAll(listing);
    hide EncodeAll;
    hide Parse;
    hide Proper;
    hide Short;
    hide Build;
  }

  // ---- runs over restarts ----

  datatype Op = Intern(name: Name) | Flush(order: seq<Name>) | Reopen

  ghost function Step(t: Symbols, op: Op): Symbols {
    match op
    case Intern(name) => Interned(t, name)
    case Flush(order) => if Walks(order, t.names.toId) then Rewritten(t, order) else t
    case Reopen => Opened(t.file)
  }

  ghost predicate Legal(t: Symbols, op: Op) {
    match op
    case Intern(name) => Room(t, name)
    case Flush(order) => Walks(order, t.names.toId)
    case Reopen => true
  }

  ghost function Run(t: Symbols, ops: seq<Op>): Symbols {
    if ops == [] then t else Step(Run(t, ops[..|ops| - 1]), ops[|ops| - 1])
  }

  ghost predicate LegalRun(t: Symbols, ops: seq<Op>) {
    forall n :: 0 <= n < |ops| ==> Legal(Run(t, ops[..n]), ops[n])
  }

  /** Names and ids determine each other, and the next id is above all. */
  ghost predicate OneToOne(t: Names) {
    && (forall n :: n in t.toId ==> t.toId[n] in t.toName && t.toName[t.toId[n]] == n && t.toId[n] < t.nextId)
    && (forall i :: i in t.toName ==> t.toName[i] in t.toId && t.toId[t.toName[i]] == i)
  }

  /** No name of t has another id in u, or none. */
  ghost predicate Extends(t: Names, u: Names) {
    forall n :: n in t.toId ==> n in u.toId && u.toId[n] == t.toId[n]
  }

  lemma {:induction false} HeldOneToOne(t: Symbols, es: seq<Entry>)
    requires Holds(t, es)
    ensures OneToOne(t.names)
  {
    BuildFaithful(es);
    hide Build;
    hide Proper;
  }

  lemma {:induction false} StepExtends(t: Symbols, op: Op)
    requires op.Reopen? ==> Opened(t.file) == t
    ensures Extends(t.names, Step(t, op).names)
  {
    hide Build;
    hide Parse;
    hide EncodeEntry;
    hide EncodeAll;
  }

  lemma {:induction false} StepSynced(t: Symbols, op: Op)
    requires Synced(t) && Legal(t, op)
    ensures Synced(Step(t, op)) && Extends(t.names, Step(t, op).names)
  {
    SyncedHolds(t);
    assert Opened(t.file) == t;
    StepExtends(t, op);
    hide Synced;
    hide Extends;
    hide Interned;
    hide Rewritten;
    match op
    case Intern(name) => InternSynced(t, name);
    case Flush(order) => RewriteSyncs(t, order);
    case Reopen =>
  }

  lemma {:induction false} SyncedMeans(t: Symbols)
    requires Synced(t)
    ensures Opened(t.file) == t && OneToOne(t.names)
  {
    SyncedHolds(t);
    HeldOneToOne(t, Parse(t.file));
    hide *;
  }

  lemma {:induction false} LegalBefore(t: Symbols, ops: seq<Op>)
    requires LegalRun(t, ops) && ops != []
    ensures LegalRun(t, ops[..|ops| - 1]) && Legal(Run(t, ops[..|ops| - 1]), ops[|ops| - 1])
  {
    var m := |ops| - 1;
    assert forall i :: 0 <= i <= m ==> ops[..m][..i] == ops[..i];
    hide Legal;
    hide Run;
  }

  lemma {:induction false} RunSynced(t: Symbols, ops: seq<Op>)
    requires Synced(t) && LegalRun(t, ops)
    ensures Synced(Run(t, ops))
  {
    if ops != [] {
      var m := |ops| - 1;
      LegalBefore(t, ops);
      RunSynced(t, ops[..m]);
      StepSynced(Run(t, ops[..m]), ops[m]);
      hide Step;
      hide LegalRun;
    }
  }

  lemma {:induction false} ExtendsFurther(t: Names, u: Names, v: Names)
    requires Extends(t, u) && Extends(u, v)
    ensures Extends(t, v)
  {
  }

  lemma {:induction false} ExtendsSelf(t: Names)
    ensures Extends(t, t)
  {
  }

  lemma {:induction false} RunExtends(t: Symbols, ops: seq<Op>, n: nat)
    requires Synced(t) && LegalRun(t, ops) && n <= |ops|
    ensures Extends(Run(t, ops[..n]).names, Run(t, ops).names)
    decreases |ops|
  {
    hide *;
    if n < |ops| {
      var m := |ops| - 1;
      LegalBefore(t, ops);
      RunExtends(t, ops[..m], n);
      assert ops[..m][..n] == ops[..n];
      RunSynced(t, ops[..m]);
      StepSynced(Run(t, ops[..m]), ops[m]);
      RunLast(t, ops);
      ExtendsFurther(Run(t, ops[..n]).names, Run(t, ops[..m]).names, Run(t, ops).names);
    } else {
      assert ops[..n] == ops;
      ExtendsSelf(Run(t, ops).names);
    }
  }

  lemma {:induction false} RunLast(t: Symbols, ops: seq<Op>)
    requires ops != []
    ensures Run(t, ops) == Step(Run(t, ops[..|ops| - 1]), ops[|ops| - 1])
  {
    hide Step;
  }

  /** Through any run of interning, rewriting and reopening, the file loads to the table, names and ids stay one to
      one, and a name keeps its id for good. */
  lemma {:induction false} IdsAreStable(t: Symbols, ops: seq<Op>, n: nat)
    requires Synced(t) && LegalRun(t, ops) && n <= |ops|
    ensures var u := Run(t, ops);
            Synced(u) && Opened(u.file) == u && OneToOne(u.names) && Extends(Run(t, ops[..n]).names, u.names)
  {
    hide *;
    RunSynced(t, ops);
    SyncedMeans(Run(t, ops));
    RunExtends(t, ops, n);
  }

  /** After a crash that tore the file at any byte, interning and then rewriting puts table and file in step again,
      and every name that survived keeps its id. */
  lemma {:induction false} FlushRepairs(es: seq<Entry>, n: nat, names: seq<Name>, order: seq<Name>)
    requires Proper(es) && Short(es) && n <= |EncodeAll(es)|
    requires var ops := Interning(names); LegalRun(Opened(EncodeAll(es)[..n]), ops + [Flush(order)])
    ensures var t := Opened(EncodeAll(es)[..n]);
            var u := Run(t, Interning(names) + [Flush(order)]);
            t.names == Build(es[..Whole(es, n)]) && Synced(u) && Extends(t.names, u.names)
  {
    var t, ops := Opened(EncodeAll(es)[..n]), Interning(names);
    var k := Whole(es, n);
    CutLoadsWhole(es, n);
    assert Holds(t, es[..k]);
    assert Consistent(t);
    hide Opened;
    InterningKeeps(t, names, order, |names|);
    var s := Run(t, ops);
    assert (ops + [Flush(order)])[..|ops|] == ops && ops[..|names|] == ops;
    assert Legal(s, (ops + [Flush(order)])[|ops|]);
    RewriteSyncs(s, order);
  }

  function Interning(names: seq<Name>): (ops: seq<Op>)
    ensures |ops| == |names| && forall i :: 0 <= i < |ops| ==> ops[i] == Intern(names[i])
  {
    seq(|names|, i requires 0 <= i < |names| => Intern(names[i]))
  }

  lemma {:induction false} InterningKeeps(t: Symbols, names: seq<Name>, order: seq<Name>, n: nat)
    requires Consistent(t) && LegalRun(t, Interning(names) + [Flush(order)]) && n <= |names|
    ensures var s := Run(t, Interning(names)[..n]); Consistent(s) && Extends(t.names, s.names)
  {
    var ops := Interning(names);
    if n > 0 {
      InterningKeeps(t, names, order, n - 1);
      var s := Run(t, ops[..n - 1]);
      assert (ops + [Flush(order)])[..n - 1] == ops[..n - 1] == ops[..n][..n - 1];
      assert Legal(s, (ops + [Flush(order)])[n - 1]);
      InternConsistent(s, names[n - 1]);
      StepExtends(s, ops[n - 1]);
      hide Consistent;
      hide Interned;
    }
  }

  class SymbolTable {
    var file: seq<byte>
    var toId: map<Name, u32>
    var toName: map<u32, Name>
    var nextId: u32

    function State(): Symbols
      reads this
    {
      Symbols(file, Names(toId, toName, nextId))
    }

    /** A fresh table without a file. */
    constructor ()
      ensures State() == Opened([]) && Synced(State())
    {
      file, toId, toName, nextId := [], map[], map[], 1;
    }

    constructor Open(contents: seq<byte>)
      ensures State() == Opened(contents)
    {
      file, toId, toName, nextId := contents, map[], map[], 1;
      new;
      Load();
    }

    method Load()
      requires Names(toId, toName, nextId) == EMPTY
      modifies `toId, `toName, `nextId
      ensures Names(toId, toName, nextId) == Build(Parse(file))
    {
      hide Read32;
      hide NameLength;
      var rest := file;
      ghost var seen: seq<Entry> := [];
      while true
        invariant seen + Parse(rest) == Parse(file) && Names(toId, toName, nextId) == Build(seen)
        decreases |rest|
      {
        if |rest| < 6 {
          break;
        }
        var id, len := Read32(rest, 0), NameLength(rest);
        if |rest| < 6 + len {
          break;
        }
        var e := Entry(id, rest[6..6 + len]);
        ParseNext(rest, seen);
        hide Parse;
        assert (seen + [e])[..|seen|] == seen;
        toId, toName := toId[e.name := id], toName[id := e.name];
        if id >= nextId {
          nextId := (id + 1) % TWO_32;
        }
        seen, rest := seen + [e], rest[6 + len..];
      }
      assert seen == Parse(file);
    }

    method Intern(name: Name) returns (id: u32)
      modifies this
      ensures State() == Interned(old(State()), name) && name in toId && toId[name] == id
    {
      hide EncodeEntry;
      if name in toId {
        return toId[name];
      }
      id := nextId;
      nextId := (nextId + 1) % TWO_32;
      toId, toName := toId[name := id], toName[id := name];
      file := file + EncodeEntry(Entry(id, name));
    }

    /** Rewrites the file from the name map, in whatever order the map is walked. */
    method Flush(order: seq<Name>)
      requires Walks(order, toId)
      modifies `file
      ensures State() == Rewritten(old(State()), order)
    {
      hide EncodeEntry;
      hide EncodeAll;
      ghost var listing := Listing(order, toId);
      EncodeNone(listing);
      file := [];
      for i := 0 to |order|
        invariant file == EncodeAll(listing[..i])
      {
        var e := Entry(toId[order[i]], order[i]);
        EncodeSnoc(listing[..i], e);
        assert listing[..i + 1] == listing[..i] + [e];
        file := file + EncodeEntry(e);
      }
      assert listing[..|order|] == listing;
    }
  }

  lemma {:induction false} EncodeNone(es: seq<Entry>)
    ensures EncodeAll(es[..0]) == []
  {
  }

  lemma {:induction false} PutNext(t: Names, e: Entry)
    requires e.id == t.nextId < 0xFFFF_FFFF
    ensures Put(t, e) == Names(t.toId[e.name := e.id], t.toName[e.id := e.name], e.id + 1)
  {
  }

  lemma {:induction false} BuildSnoc(log: seq<Entry>, e: Entry)
    ensures Build(log + [e]) == Put(Build(log), e)
  {
    assert (log + [e])[..|log|] == log;
    hide Put;
  }

  lemma {:induction false} NextProper(log: seq<Entry>, e: Entry)
    requires Proper(log) && Short(log) && Faithful(Build(log), log)
    requires e.id == Build(log).nextId < 0xFFFF_FFFF && e.name !in Build(log).toId && |e.name| < NAME_LIMIT
    ensures Proper(log + [e]) && Short(log + [e]) && e.id !in Build(log).toName && e.id >= 1
  {
    var t := Build(log);
    hide Build;
    forall i | 0 <= i < |log| ensures log[i].id != e.id && log[i].name != e.name {
      assert log[i] in log;
    }
  }

  /** The entries of the map, listed in any order, are the entries of the log. */
  lemma {:induction false} ListingProper(order: seq<Name>, toId: map<Name, u32>, log: seq<Entry>)
    requires Proper(log) && Short(log) && toId == Build(log).toId && Walks(order, toId)
    ensures var es := Listing(order, toId); Proper(es) && Short(es) && forall e :: e in log <==> e in es
  {
    var es := Listing(order, toId);
    BuildFaithful(log);
    hide Build;
    hide Listing;
    hide Proper;
    hide Short;
    forall i | 0 <= i < |es| ensures es[i] in log {
      assert Entry(toId[es[i].name], es[i].name) in log;
    }
    forall e | e in log ensures e in es {
      LoggedListed(order, toId, log, es, e);
    }
    hide Faithful;
    ListingDistinct(order, log, es);
  }

  lemma {:induction false} LoggedListed(order: seq<Name>, toId: map<Name, u32>, log: seq<Entry>, es: seq<Entry>,
      e: Entry)
    requires e in log && e.name in toId && toId[e.name] == e.id && e.name in order && |es| == |order|
    requires forall i :: 0 <= i < |es| ==> order[i] in toId && es[i] == Entry(toId[order[i]], order[i])
    ensures e in es
  {
    var i :| 0 <= i < |order| && order[i] == e.name;
    assert es[i] == e;
  }

  lemma {:induction false} ListingDistinct(order: seq<Name>, log: seq<Entry>, es: seq<Entry>)
    requires Proper(log) && Short(log) && |es| == |order|
    requires forall i :: 0 <= i < |es| ==> es[i].name == order[i] && es[i] in log
    requires forall i, j :: 0 <= i < j < |order| ==> order[i] != order[j]
    ensures Proper(es) && Short(es)
  {
    forall i, j | 0 <= i < j < |es| ensures es[i].id != es[j].id && es[i].name != es[j].name {
      DistinctIds(log, es[i], es[j]);
    }
    forall i | 0 <= i < |es| ensures |es[i].name| < NAME_LIMIT && 1 <= es[i].id < 0xFFFF_FFFF {
      LoggedFits(log, es[i]);
    }
  }

  lemma {:induction false} LoggedFits(log: seq<Entry>, e: Entry)
    requires Proper(log) && Short(log) && e in log
    ensures |e.name| < NAME_LIMIT && 1 <= e.id < 0xFFFF_FFFF
  {
    var i :| 0 <= i < |log| && log[i] == e;
  }

  lemma {:induction false} DistinctIds(log: seq<Entry>, d: Entry, e: Entry)
    requires Proper(log) && d in log && e in log && d.name != e.name
    ensures d.id != e.id
  {
    var a :| 0 <= a < |log| && log[a] == d;
    var b :| 0 <= b < |log| && log[b] == e;
    assert a < b || b < a;
  }
}
