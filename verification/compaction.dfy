/** Merging tables: newest version per key, tombstone collection and the split into output files. */
module Compactions {
  import opened Bytes
  import opened Core
  import opened Wrappers
  import E = Events

  /** An event and the sequence number of the table it comes from. */
  datatype Tagged = Tagged(e: Event, seqNo: u64)

  datatype Input = Input(sequence: u64, events: seq<Event>)

  function TagAll(es: seq<Event>, seqNo: u64): (s: seq<Tagged>)
    ensures |s| == |es| && forall i :: 0 <= i < |s| ==> s[i] == Tagged(es[i], seqNo)
  {
    seq(|es|, i requires 0 <= i < |es| => Tagged(es[i], seqNo))
  }

  function Gathered(inputs: seq<Input>): seq<Tagged> {
    if inputs == [] then []
    else Gathered(inputs[..|inputs| - 1]) + TagAll(inputs[|inputs| - 1].events, inputs[|inputs| - 1].sequence)
  }

  // ---- sorting ----

  /** The comparator: keys ascending, and for one key the newest table first. */
  predicate Before(a: Tagged, b: Tagged) {
    if KeyOf(a.e) != KeyOf(b.e) then Less(KeyOf(a.e), KeyOf(b.e)) else a.seqNo > b.seqNo
  }

  ghost predicate Ordered(s: seq<Tagged>) {
    forall i, j :: 0 <= i < j < |s| ==> !Before(s[j], s[i])
  }

  /** Behind everything that x does not come before. */
  function InsertLast(s: seq<Tagged>, x: Tagged): seq<Tagged> {
    if s == [] || !Before(x, s[|s| - 1]) then s + [x] else InsertLast(s[..|s| - 1], x) + [s[|s| - 1]]
  }

  /** What `std::stable_sort` leaves: equal elements keep their order. */
  function StableSort(l: seq<Tagged>): seq<Tagged> {
    if l == [] then [] else InsertLast(StableSort(l[..|l| - 1]), l[|l| - 1])
  }

  lemma {:induction false} NotBeforeTransitive(a: Tagged, b: Tagged, c: Tagged)
    requires !Before(c, b) && !Before(b, a)
    ensures !Before(c, a)
  {
  }

  lemma {:induction false} InsertAdds(s: seq<Tagged>, x: Tagged)
    ensures multiset(InsertLast(s, x)) == multiset(s) + multiset{x}
    ensures forall t :: t in InsertLast(s, x) ==> t in s || t == x
  {
    if s != [] {
      var n := |s| - 1;
      assert s == s[..n] + [s[n]];
      if Before(x, s[n]) {
        InsertAdds(s[..n], x);
      }
    }
  }

  lemma {:induction false} InsertOrdered(s: seq<Tagged>, x: Tagged)
    requires Ordered(s)
    ensures Ordered(InsertLast(s, x))
  {
    if s != [] {
      var n := |s| - 1;
      if Before(x, s[n]) {
        InsertOrdered(s[..n], x);
        InsertAdds(s[..n], x);
        forall t | t in InsertLast(s[..n], x) ensures !Before(s[n], t) {
          if t != x {
            var i :| 0 <= i < n && s[i] == t;
          } else {
            BeforeOneWay(x, s[n]);
          }
        }
      } else {
        forall i | 0 <= i < n ensures !Before(x, s[i]) {
          NotBeforeTransitive(s[i], s[n], x);
        }
      }
    }
  }

  lemma {:induction false} BeforeOneWay(a: Tagged, b: Tagged)
    requires Before(a, b)
    ensures !Before(b, a)
  {
  }

  lemma {:induction false} SortOrders(l: seq<Tagged>)
    ensures Ordered(StableSort(l)) && multiset(StableSort(l)) == multiset(l)
  {
    if l != [] {
      var n := |l| - 1;
      SortOrders(l[..n]);
      InsertOrdered(StableSort(l[..n]), l[n]);
      InsertAdds(StableSort(l[..n]), l[n]);
      assert l == l[..n] + [l[n]];
    }
  }

  // ---- the winner of each key ----

  /** The first entry of the key. */
  function FirstOf(s: seq<Tagged>, k: Key): (r: Option<Tagged>)
    ensures r.Some? ==> r.value in s && KeyOf(r.value.e) == k
    ensures r.None? ==> forall t :: t in s ==> KeyOf(t.e) != k
  {
    if s == [] then None
    else
      var r := FirstOf(s[..|s| - 1], k);
      if r.Some? then r else if KeyOf(s[|s| - 1].e) == k then Some(s[|s| - 1]) else None
  }

  /** The newest entry of the key, the earliest of equally new ones. */
  function Best(l: seq<Tagged>, k: Key): Option<Tagged> {
    if l == [] then None else Better(Best(l[..|l| - 1], k), l[|l| - 1], k)
  }

  function Better(r: Option<Tagged>, x: Tagged, k: Key): Option<Tagged> {
    if KeyOf(x.e) == k && (r.None? || x.seqNo > r.value.seqNo) then Some(x) else r
  }

  lemma {:induction false} FirstAfterInsert(s: seq<Tagged>, x: Tagged, k: Key)
    requires Ordered(s)
    ensures FirstOf(InsertLast(s, x), k) == Better(FirstOf(s, k), x, k)
  {
    if s != [] {
      var n := |s| - 1;
      if Before(x, s[n]) {
        FirstAfterInsert(s[..n], x, k);
        assert (InsertLast(s[..n], x) + [s[n]])[..|InsertLast(s[..n], x)|] == InsertLast(s[..n], x);
      } else {
        assert (s + [x])[..|s|] == s;
        var r := FirstOf(s, k);
        if r.Some? {
          var i :| 0 <= i < |s| && s[i] == r.value;
          NotBeforeTransitive(s[i], s[n], x);
        }
      }
    } else {
      assert [x][..0] == [];
    }
  }

  lemma {:induction false} SortPutsBestFirst(l: seq<Tagged>, k: Key)
    ensures FirstOf(StableSort(l), k) == Best(l, k)
  {
    if l != [] {
      SortOrders(l[..|l| - 1]);
      SortPutsBestFirst(l[..|l| - 1], k);
      FirstAfterInsert(StableSort(l[..|l| - 1]), l[|l| - 1], k);
    }
  }

  /** Keeps an entry when its key differs from the entry before it. */
  function Dedup(s: seq<Tagged>): (d: seq<Tagged>)
    ensures forall t :: t in d ==> t in s
  {
    if s == [] then []
    else
      var n := |s| - 1;
      Dedup(s[..n]) + if n == 0 || KeyOf(s[n].e) != KeyOf(s[n - 1].e) then [s[n]] else []
  }

  lemma {:induction false} KeyRepeats(s: seq<Tagged>, i: nat)
    requires Ordered(s) && i < |s| - 1 && KeyOf(s[i].e) == KeyOf(s[|s| - 1].e)
    ensures KeyOf(s[|s| - 2].e) == KeyOf(s[|s| - 1].e)
  {
    var n := |s| - 1;
    assert !Before(s[n], s[n - 1]);
    assert i < n - 1 ==> !Before(s[n - 1], s[i]);
    LessTotal(KeyOf(s[n - 1].e), KeyOf(s[n].e));
  }

  lemma {:induction false} DedupKeepsFirst(s: seq<Tagged>, t: Tagged)
    requires Ordered(s)
    ensures t in Dedup(s) <==> FirstOf(s, KeyOf(t.e)) == Some(t)
  {
    if s != [] {
      var n := |s| - 1;
      var x, r := s[n], FirstOf(s[..n], KeyOf(s[n].e));
      DedupKeepsFirst(s[..n], t);
      if r.Some? {
        var i :| 0 <= i < n && s[i] == r.value;
        KeyRepeats(s, i);
      } else if n > 0 {
        assert s[n - 1] in s[..n];
      }
    }
  }

  function EventsOf(d: seq<Tagged>): (es: seq<Event>)
    ensures |es| == |d| && forall i :: 0 <= i < |d| ==> es[i] == d[i].e
  {
    seq(|d|, i requires 0 <= i < |d| => d[i].e)
  }

  lemma {:induction false} DedupSorted(s: seq<Tagged>)
    requires Ordered(s)
    ensures E.Sorted(EventsOf(Dedup(s)))
  {
    if s != [] {
      var n := |s| - 1;
      var d, x := Dedup(s[..n]), s[n];
      DedupSorted(s[..n]);
      if n == 0 || KeyOf(x.e) != KeyOf(s[n - 1].e) {
        forall i | 0 <= i < |d| ensures Less(KeyOf(d[i].e), KeyOf(x.e)) {
          assert d[i] in s[..n];
          var j :| 0 <= j < n && s[j] == d[i];
          if KeyOf(s[j].e) == KeyOf(x.e) {
            KeyRepeats(s, j);
          }
          LessTotal(KeyOf(s[j].e), KeyOf(x.e));
        }
        var es := EventsOf(Dedup(s));
        assert forall i :: 0 <= i < |d| ==> es[i] == EventsOf(d)[i];
        assert es[|d|] == x.e;
      } else {
        assert Dedup(s) == d;
      }
    }
  }

  // ---- the merge ----

  function DropTombstones(es: seq<Event>): seq<Event> {
    if es == [] then []
    else DropTombstones(es[..|es| - 1]) + if es[|es| - 1].kind == TOMBSTONE then [] else [es[|es| - 1]]
  }

  const MAX_LEVELS: nat := 4

  function Versions(inputs: seq<Input>): seq<Event> {
    EventsOf(Dedup(StableSort(Gathered(inputs))))
  }

  /** Tombstones go only when the target is the bottom level. */
  function Merged(inputs: seq<Input>, level: nat): seq<Event> {
    if level >= MAX_LEVELS - 1 then DropTombstones(Versions(inputs)) else Versions(inputs)
  }

  lemma {:induction false} DropMember(es: seq<Event>, e: Event)
    ensures e in DropTombstones(es) <==> e in es && e.kind != TOMBSTONE
  {
    if es != [] {
      DropMember(es[..|es| - 1], e);
      assert e in es <==> e in es[..|es| - 1] || e == es[|es| - 1];
    }
  }

  lemma {:induction false} DropSorted(es: seq<Event>)
    requires E.Sorted(es)
    ensures E.Sorted(DropTombstones(es))
  {
    if es != [] {
      var n := |es| - 1;
      var d := DropTombstones(es[..n]);
      DropSorted(es[..n]);
      forall i | 0 <= i < |d| ensures Less(KeyOf(d[i]), KeyOf(es[n])) {
        DropMember(es[..n], d[i]);
        var j :| 0 <= j < n && es[j] == d[i];
      }
    }
  }

  /** The output is strictly ascending. */
  lemma {:induction false} MergedSorted(inputs: seq<Input>, level: nat)
    ensures E.Sorted(Versions(inputs)) && E.Sorted(Merged(inputs, level))
  {
    SortOrders(Gathered(inputs));
    DedupSorted(StableSort(Gathered(inputs)));
    DropSorted(Versions(inputs));
  }

  lemma {:induction false} VersionsAreBest(inputs: seq<Input>, e: Event)
    ensures e in Versions(inputs)
            <==> Best(Gathered(inputs), KeyOf(e)).Some? && Best(Gathered(inputs), KeyOf(e)).value.e == e
  {
    var l := Gathered(inputs);
    var s := StableSort(l);
    SortOrders(l);
    SortPutsBestFirst(l, KeyOf(e));
    var r := FirstOf(s, KeyOf(e));
    if e in Versions(inputs) {
      var i :| 0 <= i < |Dedup(s)| && Dedup(s)[i].e == e;
      DedupKeepsFirst(s, Dedup(s)[i]);
    }
    if r.Some? && r.value.e == e {
      DedupKeepsFirst(s, r.value);
      var i :| 0 <= i < |Dedup(s)| && Dedup(s)[i] == r.value;
      assert EventsOf(Dedup(s))[i] == e;
    }
  }

  // ---- in terms of the inputs ----

  ghost predicate Holds(input: Input, k: Key) {
    exists e :: e in input.events && KeyOf(e) == k
  }

  /** Input i has the key's newest version; of equally new inputs the earliest wins. */
  ghost predicate Wins(inputs: seq<Input>, i: int, k: Key) {
    && 0 <= i < |inputs| && Holds(inputs[i], k)
    && forall j :: 0 <= j < |inputs| && Holds(inputs[j], k)
         ==> inputs[j].sequence < inputs[i].sequence || (inputs[j].sequence == inputs[i].sequence && i <= j)
  }

  ghost predicate AllSorted(inputs: seq<Input>) {
    forall i :: 0 <= i < |inputs| ==> E.Sorted(inputs[i].events)
  }

  lemma {:induction false} BestOverOthers(l: seq<Tagged>, es: seq<Event>, q: u64, k: Key)
    requires forall e :: e in es ==> KeyOf(e) != k
    ensures Best(l + TagAll(es, q), k) == Best(l, k)
  {
    if es == [] {
      assert l + TagAll(es, q) == l;
    } else {
      var n := |es| - 1;
      BestOverOthers(l, es[..n], q, k);
      assert (l + TagAll(es, q))[..|l| + n] == l + TagAll(es[..n], q);
      assert es[n] in es;
    }
  }

  lemma {:induction false} BestOverTags(l: seq<Tagged>, es: seq<Event>, q: u64, e: Event)
    requires E.Sorted(es) && e in es
    ensures Best(l + TagAll(es, q), KeyOf(e)) == Better(Best(l, KeyOf(e)), Tagged(e, q), KeyOf(e))
  {
    var n, k := |es| - 1, KeyOf(e);
    assert (l + TagAll(es, q))[..|l| + n] == l + TagAll(es[..n], q);
    if e == es[n] {
      forall d | d in es[..n] ensures KeyOf(d) != k {
        var j :| 0 <= j < n && es[j] == d;
        assert Less(KeyOf(es[j]), KeyOf(es[n]));
      }
      BestOverOthers(l, es[..n], q, k);
    } else {
      var i :| 0 <= i < |es| && es[i] == e;
      assert es[..n][i] == e && Less(KeyOf(es[i]), KeyOf(es[n]));
      BestOverTags(l, es[..n], q, e);
    }
  }

  /** The winner of a key over all gathered entries is an entry of the winning input. */
  ghost predicate FromWinner(inputs: seq<Input>, k: Key, t: Tagged) {
    KeyOf(t.e) == k && exists i :: Wins(inputs, i, k) && t.e in inputs[i].events && t.seqNo == inputs[i].sequence
  }

  lemma {:induction false} BestWins(inputs: seq<Input>, k: Key)
    requires AllSorted(inputs)
    ensures Best(Gathered(inputs), k).None? ==> forall i :: 0 <= i < |inputs| ==> !Holds(inputs[i], k)
    ensures Best(Gathered(inputs), k).Some? ==> FromWinner(inputs, k, Best(Gathered(inputs), k).value)
  {
    if inputs != [] {
      var n := |inputs| - 1;
      var front, x := inputs[..n], inputs[n];
      BestWins(front, k);
      var r0 := Best(Gathered(front), k);
      assert inputs == front + [x];
      hide E.Sorted;
      hide Best;
      if e :| e in x.events && KeyOf(e) == k {
        BestOverTags(Gathered(front), x.events, x.sequence, e);
        hide Gathered;
        WinsWith(front, x, k, r0, e);
      } else {
        BestOverOthers(Gathered(front), x.events, x.sequence, k);
        hide Gathered;
        WinsWithout(front, x, k, r0);
      }
    }
  }

  lemma {:induction false} WinsWith(front: seq<Input>, x: Input, k: Key, r: Option<Tagged>, e: Event)
    requires e in x.events && KeyOf(e) == k
    requires r.None? ==> forall i :: 0 <= i < |front| ==> !Holds(front[i], k)
    requires r.Some? ==> FromWinner(front, k, r.value)
    ensures var b := Better(r, Tagged(e, x.sequence), k); b.Some? && FromWinner(front + [x], k, b.value)
  {
    var n, inputs := |front|, front + [x];
    assert Holds(inputs[n], k);
    if r.None? {
      assert Wins(inputs, n, k);
    } else {
      var i :| Wins(front, i, k) && r.value.e in front[i].events && r.value.seqNo == front[i].sequence;
      if x.sequence > r.value.seqNo {
        assert Wins(inputs, n, k);
      } else {
        assert Wins(inputs, i, k);
      }
    }
  }

  lemma {:induction false} WinsWithout(front: seq<Input>, x: Input, k: Key, r: Option<Tagged>)
    requires !Holds(x, k) && r.Some? ==> FromWinner(front, k, r.value)
    ensures !Holds(x, k) && r.Some? ==> FromWinner(front + [x], k, r.value)
  {
    if !Holds(x, k) && r.Some? {
      var i :| Wins(front, i, k) && r.value.e in front[i].events && r.value.seqNo == front[i].sequence;
      assert Wins(front + [x], i, k);
    }
  }

  lemma {:induction false} KeyedOnce(es: seq<Event>, e: Event, d: Event)
    requires E.Sorted(es) && e in es && d in es && KeyOf(e) == KeyOf(d)
    ensures e == d
  {
    var i :| 0 <= i < |es| && es[i] == e;
    var j :| 0 <= j < |es| && es[j] == d;
    LessTotal(KeyOf(e), KeyOf(d));
  }

  lemma {:induction false} OneWinner(inputs: seq<Input>, i: int, j: int, k: Key)
    requires Wins(inputs, i, k) && Wins(inputs, j, k)
    ensures i == j
  {
  }

  ghost predicate Newest(inputs: seq<Input>, e: Event) {
    exists i :: Wins(inputs, i, KeyOf(e)) && e in inputs[i].events
  }

  /** The merge keeps, for every key of the inputs, exactly the version of the newest table that has it. */
  lemma {:induction false} NewestPerKey(inputs: seq<Input>, e: Event)
    requires AllSorted(inputs)
    ensures e in Versions(inputs) <==> Newest(inputs, e)
  {
    var k := KeyOf(e);
    var r := Best(Gathered(inputs), k);
    VersionsAreBest(inputs, e);
    BestWins(inputs, k);
    hide Best;
    hide Versions;
    hide Gathered;
    if i :| Wins(inputs, i, k) && e in inputs[i].events {
      assert Holds(inputs[i], k);
      var j :| Wins(inputs, j, k) && r.value.e in inputs[j].events;
      OneWinner(inputs, i, j, k);
      KeyedOnce(inputs[i].events, e, r.value.e);
    }
  }

  /** And then drops tombstones exactly when writing to the bottom level. */
  lemma {:induction false} MergedMembers(inputs: seq<Input>, level: nat, e: Event)
    requires AllSorted(inputs)
    ensures e in Merged(inputs, level) <==> Newest(inputs, e) && (level >= 3 ==> e.kind != 0xFF)
  {
    NewestPerKey(inputs, e);
    DropMember(Versions(inputs), e);
  }

  // ---- replaying the inputs ----

  /** Upserts a run into another, one event after the other. */
  function Overlay(base: seq<Event>, es: seq<Event>): seq<Event> {
    if es == [] then base else E.Upsert(Overlay(base, es[..|es| - 1]), es[|es| - 1])
  }

  /** The inputs applied one after the other. */
  function Replay(inputs: seq<Input>): seq<Event> {
    if inputs == [] then [] else Overlay(Replay(inputs[..|inputs| - 1]), inputs[|inputs| - 1].events)
  }

  ghost predicate Ascending(inputs: seq<Input>) {
    forall i, j :: 0 <= i < j < |inputs| ==> inputs[i].sequence < inputs[j].sequence
  }

  lemma {:induction false} OverlayMember(base: seq<Event>, es: seq<Event>, e: Event)
    requires E.Sorted(es)
    ensures e in Overlay(base, es) <==> e in es || (e in base && forall d :: d in es ==> KeyOf(d) != KeyOf(e))
  {
    if es != [] {
      var n := |es| - 1;
      OverlayMember(base, es[..n], e);
      E.UpsertMember(Overlay(base, es[..n]), es[n], e);
      assert es == es[..n] + [es[n]];
      assert e in es[..n] ==> KeyOf(e) != KeyOf(es[n]) by {
        if e in es[..n] {
          var i :| 0 <= i < n && es[i] == e;
          assert Less(KeyOf(es[i]), KeyOf(es[n]));
        }
      }
    }
  }

  lemma {:induction false} OverlaySorted(base: seq<Event>, es: seq<Event>)
    requires E.Sorted(base)
    ensures E.Sorted(Overlay(base, es))
  {
    if es != [] {
      OverlaySorted(base, es[..|es| - 1]);
      E.UpsertSorted(Overlay(base, es[..|es| - 1]), es[|es| - 1]);
    }
  }

  /** A newer input added at the end takes over the keys it holds. */
  lemma {:induction false} NewestSnoc(front: seq<Input>, x: Input, e: Event)
    requires forall i :: 0 <= i < |front| ==> front[i].sequence < x.sequence
    ensures Newest(front + [x], e) <==> e in x.events || (Newest(front, e) && !Holds(x, KeyOf(e)))
  {
    var n, k, inputs := |front|, KeyOf(e), front + [x];
    if e in x.events {
      assert Holds(x, k);
      assert Wins(inputs, n, k);
    }
    if i :| Wins(inputs, i, k) && e in inputs[i].events {
      if i < n {
        assert inputs[n] == x && inputs[i] == front[i];
        forall j | 0 <= j < n && Holds(front[j], k)
          ensures front[j].sequence < front[i].sequence || (front[j].sequence == front[i].sequence && i <= j)
        {
          assert inputs[j] == front[j];
        }
        assert Wins(front, i, k);
      }
    }
    if !Holds(x, k) {
      if i :| Wins(front, i, k) && e in front[i].events {
        assert Wins(inputs, i, k);
      }
    }
  }

  lemma {:induction false} ReplayNewest(inputs: seq<Input>, e: Event)
    requires AllSorted(inputs) && Ascending(inputs)
    ensures e in Replay(inputs) <==> Newest(inputs, e)
  {
    if inputs != [] {
      var n := |inputs| - 1;
      ReplayNewest(inputs[..n], e);
      OverlayMember(Replay(inputs[..n]), inputs[n].events, e);
      assert inputs == inputs[..n] + [inputs[n]];
      hide E.Sorted;
      hide Overlay;
      NewestSnoc(inputs[..n], inputs[n], e);
      hide Newest;
    }
  }

  lemma {:induction false} ReplaySorted(inputs: seq<Input>)
    ensures E.Sorted(Replay(inputs))
  {
    if inputs != [] {
      ReplaySorted(inputs[..|inputs| - 1]);
      OverlaySorted(Replay(inputs[..|inputs| - 1]), inputs[|inputs| - 1].events);
    }
  }

  /** Sorted runs with the same members are the same run. */
  lemma {:induction false} SortedUnique(a: seq<Event>, b: seq<Event>)
    requires E.Sorted(a) && E.Sorted(b) && forall e :: e in a <==> e in b
    ensures a == b
  {
    if a == [] {
      NoneIn(b);
    } else {
      assert a[0] in b;
      SameHead(a, b);
      forall e ensures e in a[1..] <==> e in b[1..] {
        TailMember(a, e);
        TailMember(b, e);
      }
      SortedUnique(a[1..], b[1..]);
    }
  }

  lemma {:induction false} NoneIn(b: seq<Event>)
    requires forall e :: e !in b
    ensures b == []
  {
    if b != [] {
      var e := AnyOf(b);
    }
  }

  lemma {:induction false} AnyOf(b: seq<Event>) returns (e: Event)
    requires b != []
    ensures e in b
  {
    e := b[0];
  }

  lemma {:induction false} TailMember(a: seq<Event>, e: Event)
    requires E.Sorted(a) && a != []
    ensures e in a[1..] <==> e in a && e != a[0]
  {
    if e in a[1..] {
      var i :| 1 <= i < |a| && a[i] == e;
      LessTotal(KeyOf(a[0]), KeyOf(a[i]));
    }
  }

  lemma {:induction false} SameHead(a: seq<Event>, b: seq<Event>)
    requires E.Sorted(a) && E.Sorted(b) && a != [] && b != [] && forall e :: e in a <==> e in b
    ensures a[0] == b[0]
  {
    assert a[0] in b && b[0] in a;
    var i :| 0 <= i < |b| && b[i] == a[0];
    var j :| 0 <= j < |a| && a[j] == b[0];
    LessTotal(KeyOf(a[0]), KeyOf(b[0]));
  }

  /** With ascending sequences the merge equals applying the inputs as maps, oldest first. */
  lemma {:induction false} VersionsAreReplay(inputs: seq<Input>)
    requires AllSorted(inputs) && Ascending(inputs)
    ensures Versions(inputs) == Replay(inputs)
  {
    MergedSorted(inputs, 0);
    ReplaySorted(inputs);
    forall e ensures e in Versions(inputs) <==> e in Replay(inputs) {
      NewestPerKey(inputs, e);
      ReplayNewest(inputs, e);
    }
    hide *;
    SortedUnique(Versions(inputs), Replay(inputs));
  }

  /** With distinct sequences the order in which the inputs are listed does not matter. */
  lemma {:induction false} OrderIrrelevant(a: seq<Input>, b: seq<Input>, level: nat)
    requires AllSorted(a) && AllSorted(b)
    requires forall x :: x in a <==> x in b
    requires forall i, j :: 0 <= i < |a| && 0 <= j < |a| && a[i].sequence == a[j].sequence ==> a[i] == a[j]
    ensures Merged(a, level) == Merged(b, level)
  {
    MergedSorted(a, level);
    MergedSorted(b, level);
    forall e ensures e in Versions(a) <==> e in Versions(b) {
      NewestPerKey(a, e);
      NewestPerKey(b, e);
      SameNewest(a, b, e);
    }
    hide Versions;
    SortedUnique(Versions(a), Versions(b));
  }

  lemma {:induction false} SameNewest(a: seq<Input>, b: seq<Input>, e: Event)
    requires forall x :: x in a <==> x in b
    requires forall i, j :: 0 <= i < |a| && 0 <= j < |a| && a[i].sequence == a[j].sequence ==> a[i] == a[j]
    ensures Newest(a, e) <==> Newest(b, e)
  {
    NewestAmong(a, e);
    assert forall x, y :: x in b && y in b && x.sequence == y.sequence ==> x == y;
    NewestAmong(b, e);
    assert forall x :: NoneNewer(a, x, e) <==> NoneNewer(b, x, e);
  }

  ghost predicate NoneNewer(a: seq<Input>, x: Input, e: Event) {
    x in a && e in x.events && forall y :: y in a && Holds(y, KeyOf(e)) ==> y.sequence <= x.sequence
  }

  /** With distinct sequences, being newest is a matter of which inputs there are. */
  lemma {:induction false} NewestAmong(a: seq<Input>, e: Event)
    requires forall x, y :: x in a && y in a && x.sequence == y.sequence ==> x == y
    ensures Newest(a, e) <==> exists x :: NoneNewer(a, x, e)
  {
    var k := KeyOf(e);
    if i :| Wins(a, i, k) && e in a[i].events {
      assert NoneNewer(a, a[i], e);
    }
    if x :| NoneNewer(a, x, e) {
      assert Holds(x, k);
      var i := FirstIndex(a, x);
      forall j | 0 <= j < |a| && Holds(a[j], k)
        ensures a[j].sequence < x.sequence || (a[j].sequence == x.sequence && i <= j)
      {
        assert a[j] in a;
      }
      assert Wins(a, i, k);
    }
  }

  lemma {:induction false} FirstIndex(a: seq<Input>, x: Input) returns (i: nat)
    requires x in a
    ensures i < |a| && a[i] == x && forall j :: 0 <= j < i ==> a[j] != x
  {
    i := 0;
    while a[i] != x
      decreases |a| - i
      invariant i < |a| && x in a[i..] && forall j :: 0 <= j < i ==> a[j] != x
    {
      i := i + 1;
    }
  }
}
