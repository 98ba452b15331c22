/** The memtable: a skip list of events with its smallest and largest key. */
module MemTables {
  import opened Core
  import L = SkipLists
  import E = Events

  /** Each value is stored under its own key. */
  ghost predicate Keyed(s: seq<L.Entry>) {
    forall i :: 0 <= i < |s| ==> s[i].key == KeyOf(s[i].val)
  }

  ghost function Values(s: seq<L.Entry>): (es: seq<Event>)
    ensures |es| == |s| && forall i :: 0 <= i < |s| ==> es[i] == s[i].val
  {
    seq(|s|, i requires 0 <= i < |s| => s[i].val)
  }

  lemma {:induction false} ValuesOfPut(s: seq<L.Entry>, e: Event, r: nat)
    requires Keyed(s) && r == L.Rank(s, KeyOf(e))
    ensures var t, es := L.Put(s, KeyOf(e), e), Values(s);
            Keyed(t) && Values(t) == es[..r] + [e] + if r < |s| && s[r].key == KeyOf(e) then es[r + 1..] else es[r..]
  {
    hide L.Rank;
  }

  lemma {:induction false} NotBelowRank(s: seq<L.Entry>, k: Key, i: nat)
    requires L.Sorted(s) && L.Rank(s, k) <= i < |s|
    ensures !Less(s[i].key, k)
  {
    var r := L.Rank(s, k);
    if r < i {
      assert Less(s[r].key, s[i].key);
    }
  }

  /** The list's positional update is the memtable's replacement by key. */
  lemma {:induction false} PutIsUpsert(s: seq<L.Entry>, e: Event)
    requires L.Sorted(s) && Keyed(s)
    ensures Keyed(L.Put(s, KeyOf(e), e)) && E.Sorted(Values(s))
    ensures Values(L.Put(s, KeyOf(e), e)) == E.Upsert(Values(s), e)
  {
    var r := L.Rank(s, KeyOf(e));
    forall i | r <= i < |s| ensures !Less(KeyOf(Values(s)[i]), KeyOf(e)) {
      NotBelowRank(s, KeyOf(e), i);
    }
    ValuesOfPut(s, e, r);
    hide L.Put;
    hide Less;
    E.SplitAtKey(Values(s), KeyOf(e), r);
  }

  class MemTable {
    const list: L.SkipList
    var hasEntries: bool
    var firstKey: Key
    var lastKey: Key

    ghost predicate Valid()
      reads this, list, list.nodes
    {
      && list.Valid() && Keyed(list.Entries())
      && (hasEntries <==> list.Entries() != [])
      && (hasEntries ==> var s := list.Entries(); firstKey == s[0].key && lastKey == s[|s| - 1].key)
    }

    ghost function Events(): (es: seq<Event>)
      requires Valid()
      reads this, list, list.nodes
      ensures E.Sorted(es)
    {
      Values(list.Entries())
    }

    constructor ()
      ensures Valid() && Events() == [] && fresh(list) && fresh(list.nodes)
    {
      list := new L.SkipList();
      hasEntries, firstKey, lastKey := false, MIN_KEY, MIN_KEY;
    }

    lemma {:induction false} Facts()
      requires Valid()
      ensures list.Valid() && Keyed(list.Entries()) && Events() == Values(list.Entries())
      ensures hasEntries <==> list.Entries() != []
      ensures hasEntries ==> var s := list.Entries(); firstKey == s[0].key && lastKey == s[|s| - 1].key
    {
    }

    lemma {:induction false} Open() returns (s: seq<L.Entry>)
      requires Valid()
      ensures list.Shape() && s == list.Entries() && L.Sorted(s) && Keyed(s) && Events() == Values(s)
    {
      s := list.Entries();
    }

    lemma {:induction false} IsValid()
      requires list.Valid() && Keyed(list.Entries()) && hasEntries && list.Entries() != []
      requires var s := list.Entries(); firstKey == s[0].key && lastKey == s[|s| - 1].key
      ensures Valid() && Events() == Values(list.Entries())
    {
    }

    method Insert(e: Event, height: nat)
      requires Valid() && 1 <= height <= L.MAX_HEIGHT
      modifies this, list, list.nodes
      ensures Valid() && Events() == E.Upsert(old(Events()), e)
      ensures fresh(list.nodes - old(list.nodes))
    {
      hide *;
      Facts();
      ghost var s := list.Entries();
      PutIsUpsert(s, e);
      PutEnds(s, KeyOf(e), e);
      list.Insert(KeyOf(e), e, height);
      var k := KeyOf(e);
      if !hasEntries {
        firstKey, lastKey, hasEntries := k, k, true;
      } else {
        if Less(k, firstKey) {
          firstKey := k;
        }
        if Less(lastKey, k) {
          lastKey := k;
        }
      }
      IsValid();
    }

    static lemma {:induction false} PutEnds(s: seq<L.Entry>, k: Key, v: Event)
      requires L.Sorted(s)
      ensures var t := L.Put(s, k, v);
              && t != []
              && t[0].key == (if s == [] || Less(k, s[0].key) then k else s[0].key)
              && t[|t| - 1].key == (if s == [] || Less(s[|s| - 1].key, k) then k else s[|s| - 1].key)
    {
      var r := L.Rank(s, k);
      if s != [] {
        LessTotal(k, s[0].key);
        LessTotal(k, s[|s| - 1].key);
        if r < |s| - 1 {
          assert Less(s[r].key, s[|s| - 1].key);
        }
      }
    }

    /** Feeds the callback the events in [lo, hi] in key order, until it asks to stop. */
    method Scan<S>(lo: Key, hi: Key, init: S, f: (S, Event) -> E.Turn<S>) returns (t: E.Turn<S>)
      requires Valid()
      ensures t == E.Feed(E.InRange(Events(), lo, hi), init, f)
    {
      hide *;
      ghost var s := Open();
      ScanStart(s, lo, hi, init, f);
      t := E.Turn(init, true);
      var node, i := list.Seek(lo);
      while node != null
        invariant list.OnEntry(node, i) && (node == null <==> i == |s|)
        invariant Scanned(s, i, lo, hi, init, t, f)
        decreases |s| - i
      {
        var e := list.Value(node, i);
        ScanStep(s, i, lo, hi, init, t, f);
        if Less(hi, node.key) {
          return;
        }
        t := f(t.state, e);
        if !t.more {
          return;
        }
        node := list.Next(node, i);
        i := i + 1;
      }
      ScanEnd(s, lo, hi, init, t, f);
    }

    /** The scan has fed the callback everything in range before position i, and still runs. */
    static ghost predicate Scanned<S>(s: seq<L.Entry>, i: nat, lo: Key, hi: Key, init: S, t: E.Turn<S>,
        f: (S, Event) -> E.Turn<S>) {
      && L.Sorted(s) && Keyed(s) && L.Rank(s, lo) <= i <= |s| && t.more
      && E.Feed(E.InRange(Values(s)[i..], lo, hi), t.state, f) == E.Feed(E.InRange(Values(s), lo, hi), init, f)
    }

    static lemma {:induction false} ScanStart<S>(s: seq<L.Entry>, lo: Key, hi: Key, init: S, f: (S, Event) -> E.Turn<S>)
      requires L.Sorted(s) && Keyed(s)
      ensures Scanned(s, L.Rank(s, lo), lo, hi, init, E.Turn(init, true), f)
    {
      var r, es := L.Rank(s, lo), Values(s);
      assert es == es[..r] + es[r..];
      E.InRangeConcat(es[..r], es[r..], lo, hi);
      E.InRangeNone(es[..r], lo, hi);
      assert [] + E.InRange(es[r..], lo, hi) == E.InRange(es[r..], lo, hi);
    }

    static lemma {:induction false} ScanStep<S>(s: seq<L.Entry>, i: nat, lo: Key, hi: Key, init: S, t: E.Turn<S>,
        f: (S, Event) -> E.Turn<S>)
      requires Scanned(s, i, lo, hi, init, t, f) && i < |s|
      ensures var whole, next := E.Feed(E.InRange(Values(s), lo, hi), init, f), f(t.state, s[i].val);
              if Less(hi, s[i].key) then t == whole
              else if next.more then Scanned(s, i + 1, lo, hi, init, next, f)
              else next == whole
    {
      var es := Values(s);
      assert es[i..][0] == es[i] && es[i..][1..] == es[i + 1..];
      NotBelowRank(s, lo, i);
      if Less(hi, s[i].key) {
        NoneBeyond(es, i, lo, hi);
      }
    }

    static lemma {:induction false} ScanEnd<S>(s: seq<L.Entry>, lo: Key, hi: Key, init: S, t: E.Turn<S>,
        f: (S, Event) -> E.Turn<S>)
      requires Scanned(s, |s|, lo, hi, init, t, f)
      ensures t == E.Feed(E.InRange(Values(s), lo, hi), init, f)
    {
    }

    static lemma {:induction false} NoneBeyond(es: seq<Event>, i: nat, lo: Key, hi: Key)
      requires E.Sorted(es) && i < |es| && Less(hi, KeyOf(es[i]))
      ensures E.InRange(es[i..], lo, hi) == []
    {
      forall j | 0 <= j < |es[i..]| ensures !E.Within(es[i..][j], lo, hi) {
        if j > 0 {
          assert Less(KeyOf(es[i]), KeyOf(es[i + j]));
        }
      }
      E.InRangeNone(es[i..], lo, hi);
    }

    method ToSortedEvents() returns (v: seq<Event>)
      requires Valid()
      ensures v == Events()
    {
      hide *;
      ghost var s := Open();
      ghost var i := 0;
      v := [];
      var node := list.SeekToFirst();
      while node != null
        invariant 0 <= i <= |s| && list.OnEntry(node, i) && (node == null <==> i == |s|)
        invariant v == Values(s)[..i]
        decreases |s| - i
      {
        var e := list.Value(node, i);
        v := v + [e];
        node := list.Next(node, i);
        i := i + 1;
      }
    }

    method MinKey() returns (k: Key)
      requires Valid()
      ensures k == if Events() == [] then MIN_KEY else KeyOf(Events()[0])
    {
      k := if hasEntries then firstKey else MIN_KEY;
    }

    method MaxKey() returns (k: Key)
      requires Valid()
      ensures k == if Events() == [] then MIN_KEY else KeyOf(Events()[|Events()| - 1])
    {
      k := if hasEntries then lastKey else MIN_KEY;
    }
  }
}
