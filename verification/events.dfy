/** Sorted runs of events, range selection, and scans with a stopping callback. */
module Events {
  import opened Core

  /** Strictly ascending keys: what memtables and tables hold. */
  ghost predicate Sorted(es: seq<Event>) {
    forall i, j :: 0 <= i < j < |es| ==> Less(KeyOf(es[i]), KeyOf(es[j]))
  }

  predicate Within(e: Event, lo: Key, hi: Key) {
    AtMost(lo, KeyOf(e)) && AtMost(KeyOf(e), hi)
  }

  function InRange(es: seq<Event>, lo: Key, hi: Key): seq<Event> {
    if es == [] then []
    else if Within(es[0], lo, hi) then [es[0]] + InRange(es[1..], lo, hi)
    else InRange(es[1..], lo, hi)
  }

  function Below(es: seq<Event>, k: Key): seq<Event> {
    if es == [] then []
    else if Less(KeyOf(es[0]), k) then [es[0]] + Below(es[1..], k)
    else Below(es[1..], k)
  }

  function Above(es: seq<Event>, k: Key): seq<Event> {
    if es == [] then []
    else if Less(k, KeyOf(es[0])) then [es[0]] + Above(es[1..], k)
    else Above(es[1..], k)
  }

  /** What inserting e does to a run: older versions of its key go, e stands in their place. */
  function Upsert(es: seq<Event>, e: Event): seq<Event> {
    Below(es, KeyOf(e)) + [e] + Above(es, KeyOf(e))
  }

  // ---- scans ----

  /** A callback's new state and whether it wants more. */
  datatype Turn<S> = Turn(state: S, more: bool)

  /** Feeds events to a callback until it asks to stop. */
  function Feed<S>(es: seq<Event>, s: S, f: (S, Event) -> Turn<S>): Turn<S>
    decreases |es|
  {
    if es == [] then Turn(s, true)
    else
      var t := f(s, es[0]);
      if t.more then Feed(es[1..], t.state, f) else t
  }

  lemma {:induction false} FeedConcat<S>(a: seq<Event>, b: seq<Event>, s: S, f: (S, Event) -> Turn<S>)
    ensures Feed(a + b, s, f) == var t := Feed(a, s, f); if t.more then Feed(b, t.state, f) else t
    decreases |a|
  {
    if a == [] {
      assert a + b == b;
    } else {
      assert (a + b)[0] == a[0] && (a + b)[1..] == a[1..] + b;
      if f(s, a[0]).more {
        FeedConcat(a[1..], b, f(s, a[0]).state, f);
      }
    }
  }

  /** Feeding nothing changes nothing, and feeding one event is the callback's turn. */
  lemma {:induction false} FeedOne<S>(e: Event, s: S, f: (S, Event) -> Turn<S>)
    ensures Feed([], s, f) == Turn(s, true) && Feed([e], s, f) == f(s, e)
  {
    assert [e][1..] == [];
  }

  lemma {:induction false} InRangeConcat(a: seq<Event>, b: seq<Event>, lo: Key, hi: Key)
    ensures InRange(a + b, lo, hi) == InRange(a, lo, hi) + InRange(b, lo, hi)
  {
    if a == [] {
      assert a + b == b;
    } else {
      InRangeConcat(a[1..], b, lo, hi);
      assert (a + b)[0] == a[0] && (a + b)[1..] == a[1..] + b;
    }
  }

  lemma {:induction false} InRangeNone(es: seq<Event>, lo: Key, hi: Key)
    requires forall i :: 0 <= i < |es| ==> !Within(es[i], lo, hi)
    ensures InRange(es, lo, hi) == []
  {
    if es != [] {
      InRangeNone(es[1..], lo, hi);
    }
  }

  lemma {:induction false} InRangeAll(es: seq<Event>, lo: Key, hi: Key)
    requires forall i :: 0 <= i < |es| ==> Within(es[i], lo, hi)
    ensures InRange(es, lo, hi) == es
  {
    if es != [] {
      InRangeAll(es[1..], lo, hi);
    }
  }

  lemma {:induction false} InRangeMember(es: seq<Event>, lo: Key, hi: Key, e: Event)
    ensures e in InRange(es, lo, hi) <==> e in es && Within(e, lo, hi)
  {
    if es != [] {
      InRangeMember(es[1..], lo, hi, e);
      assert e in es <==> e == es[0] || e in es[1..];
    }
  }

  /** The whole key space selects everything. */
  lemma {:induction false} InRangeFull(es: seq<Event>)
    ensures InRange(es, MIN_KEY, MAX_KEY) == es
  {
    InRangeAll(es, MIN_KEY, MAX_KEY);
  }

  // ---- insertion ----

  lemma {:induction false} BelowMember(es: seq<Event>, k: Key, e: Event)
    ensures e in Below(es, k) <==> e in es && Less(KeyOf(e), k)
    ensures e in Above(es, k) <==> e in es && Less(k, KeyOf(e))
  {
    if es != [] {
      BelowMember(es[1..], k, e);
      assert e in es <==> e == es[0] || e in es[1..];
    }
  }

  /** On a sorted run, insertion splits at the rank of the key. */
  lemma {:induction false} SplitAtKey(es: seq<Event>, k: Key, r: nat)
    requires Sorted(es) && r <= |es|
    requires forall i :: 0 <= i < r ==> Less(KeyOf(es[i]), k)
    requires forall i :: r <= i < |es| ==> !Less(KeyOf(es[i]), k)
    ensures Below(es, k) == es[..r]
    ensures Above(es, k) == if r < |es| && KeyOf(es[r]) == k then es[r + 1..] else es[r..]
  {
    if es != [] {
      if r == 0 {
        NothingBelow(es, k);
        assert forall i :: 1 <= i < |es| ==> Less(k, KeyOf(es[i])) by {
          forall i | 1 <= i < |es| ensures Less(k, KeyOf(es[i])) {
            LessTotal(KeyOf(es[0]), k);
          }
        }
        EverythingAbove(es[1..], k);
      } else {
        SplitAtKey(es[1..], k, r - 1);
      }
    }
  }

  lemma {:induction false} NothingBelow(es: seq<Event>, k: Key)
    requires forall i :: 0 <= i < |es| ==> !Less(KeyOf(es[i]), k)
    ensures Below(es, k) == []
  {
    if es != [] {
      NothingBelow(es[1..], k);
    }
  }

  lemma {:induction false} EverythingAbove(es: seq<Event>, k: Key)
    requires forall i :: 0 <= i < |es| ==> Less(k, KeyOf(es[i]))
    ensures Above(es, k) == es
  {
    if es != [] {
      EverythingAbove(es[1..], k);
    }
  }

  lemma {:induction false} HalvesSorted(es: seq<Event>, k: Key)
    requires Sorted(es)
    ensures Sorted(Below(es, k)) && Sorted(Above(es, k))
  {
    if es != [] {
      HalvesSorted(es[1..], k);
      forall e | e in Below(es[1..], k) || e in Above(es[1..], k) ensures Less(KeyOf(es[0]), KeyOf(e)) {
        BelowMember(es[1..], k, e);
        var i :| 0 <= i < |es[1..]| && es[1..][i] == e;
      }
    }
  }

  lemma {:induction false} UpsertSorted(es: seq<Event>, e: Event)
    requires Sorted(es)
    ensures Sorted(Upsert(es, e))
  {
    var k := KeyOf(e);
    var a, b := Below(es, k), Above(es, k);
    HalvesSorted(es, k);
    forall i | 0 <= i < |a| ensures Less(KeyOf(a[i]), k) {
      BelowMember(es, k, a[i]);
    }
    forall i | 0 <= i < |b| ensures Less(k, KeyOf(b[i])) {
      BelowMember(es, k, b[i]);
    }
  }

  lemma {:induction false} UpsertMember(es: seq<Event>, e: Event, x: Event)
    ensures x in Upsert(es, e) <==> x == e || (x in es && KeyOf(x) != KeyOf(e))
  {
    BelowMember(es, KeyOf(e), x);
    LessTotal(KeyOf(x), KeyOf(e));
  }
}
