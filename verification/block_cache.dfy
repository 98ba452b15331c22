/** The byte-bounded LRU cache of raw block bytes. */
module Caches {
  import opened Bytes
  import opened Wrappers

  datatype CacheKey = CacheKey(path: string, offset: u64)

  datatype Entry = Entry(key: CacheKey, data: seq<byte>)

  // ---- recency lists, most recently used first ----

  function Size(l: seq<Entry>): nat {
    if l == [] then 0 else Size(l[..|l| - 1]) + |l[|l| - 1].data|
  }

  ghost predicate Distinct(l: seq<Entry>) {
    forall i, j :: 0 <= i < j < |l| ==> l[i].key != l[j].key
  }

  function Lookup(l: seq<Entry>, key: CacheKey): Option<seq<byte>> {
    if l == [] then None else if l[0].key == key then Some(l[0].data) else Lookup(l[1..], key)
  }

  function Without(l: seq<Entry>, key: CacheKey): seq<Entry> {
    if l == [] then [] else (if l[0].key == key then [] else [l[0]]) + Without(l[1..], key)
  }

  function WithoutPath(l: seq<Entry>, path: string): seq<Entry> {
    if l == [] then [] else (if l[0].key.path == path then [] else [l[0]]) + WithoutPath(l[1..], path)
  }

  /** Drops least recently used entries until the bound holds. */
  function Fit(l: seq<Entry>, bound: nat): seq<Entry> {
    if l == [] || Size(l) <= bound then l else Fit(l[..|l| - 1], bound)
  }

  lemma {:induction false} SizeConcat(a: seq<Entry>, b: seq<Entry>)
    ensures Size(a + b) == Size(a) + Size(b)
  {
    if b == [] {
      assert a + b == a;
    } else {
      SizeConcat(a, b[..|b| - 1]);
      assert (a + b)[..|a + b| - 1] == a + b[..|b| - 1];
    }
  }

  lemma {:induction false} SizeOfOne(e: Entry)
    ensures Size([e]) == |e.data|
  {
    assert [e][..0] == [];
  }

  /** What survives is the longest most recently used prefix that fits. */
  lemma {:induction false} FitIsLongest(l: seq<Entry>, bound: nat, n: nat)
    requires n <= |l|
    ensures Fit(l, bound) <= l && Size(Fit(l, bound)) <= bound
    ensures Size(l[..n]) <= bound <==> n <= |Fit(l, bound)|
  {
    if l == [] || Size(l) <= bound {
      SizeConcat(l[..n], l[n..]);
      assert l[..n] + l[n..] == l;
    } else {
      var m := l[..|l| - 1];
      if n < |l| {
        FitIsLongest(m, bound, n);
        assert m[..n] == l[..n];
      } else {
        FitIsLongest(m, bound, |m|);
        assert l[..n] == l;
      }
    }
  }

  lemma {:induction false} LookupMember(l: seq<Entry>, key: CacheKey)
    ensures Lookup(l, key).None? <==> forall i :: 0 <= i < |l| ==> l[i].key != key
    ensures Lookup(l, key).Some? ==> Entry(key, Lookup(l, key).value) in l
  {
    if l != [] && l[0].key != key {
      LookupMember(l[1..], key);
      assert forall i :: 1 <= i < |l| ==> l[i] == l[1..][i - 1];
    }
  }

  lemma {:induction false} LookupOf(l: seq<Entry>, e: Entry)
    requires Distinct(l) && e in l
    ensures Lookup(l, e.key) == Some(e.data)
  {
    if l[0] != e {
      var i :| 0 <= i < |l| && l[i] == e;
      assert l[1..][i - 1] == e;
      LookupOf(l[1..], e);
    }
  }

  lemma {:induction false} WithoutMember(l: seq<Entry>, key: CacheKey, e: Entry)
    ensures e in Without(l, key) <==> e in l && e.key != key
  {
    if l != [] {
      WithoutMember(l[1..], key, e);
      assert e in l <==> e == l[0] || e in l[1..];
    }
  }

  lemma {:induction false} WithoutPathMember(l: seq<Entry>, path: string, e: Entry)
    ensures e in WithoutPath(l, path) <==> e in l && e.key.path != path
  {
    if l != [] {
      WithoutPathMember(l[1..], path, e);
      assert e in l <==> e == l[0] || e in l[1..];
    }
  }

  lemma {:induction false} WithoutDistinct(l: seq<Entry>, key: CacheKey)
    requires Distinct(l)
    ensures Distinct(Without(l, key))
  {
    if l != [] {
      WithoutDistinct(l[1..], key);
      forall e | e in Without(l[1..], key) ensures e.key != l[0].key {
        WithoutMember(l[1..], key, e);
        var i :| 0 <= i < |l[1..]| && l[1..][i] == e;
      }
    }
  }

  lemma {:induction false} WithoutSize(l: seq<Entry>, key: CacheKey)
    requires Distinct(l)
    ensures Size(Without(l, key)) == Size(l) - (if Lookup(l, key).Some? then |Lookup(l, key).value| else 0)
    decreases |l|
  {
    if l != [] {
      WithoutSize(l[1..], key);
      SizeConcat([l[0]], l[1..]);
      SizeOfOne(l[0]);
      assert [l[0]] + l[1..] == l;
      SizeConcat([l[0]], Without(l[1..], key));
      if l[0].key == key {
        assert [] + Without(l[1..], key) == Without(l[1..], key);
        LookupMember(l[1..], key);
      }
    }
  }

  // ---- the cache ----

  ghost predicate Matches(l: seq<Entry>, index: map<CacheKey, Entry>) {
    && Distinct(l)
    && (forall e :: e in l ==> e.key in index && index[e.key] == e)
    && (forall k :: k in index ==> index[k].key == k && index[k] in l)
  }

  class BlockCache {
    const maxBytes: nat
    var curBytes: nat
    var lru: seq<Entry>
    var index: map<CacheKey, Entry>

    /** The index and the list hold the same duplicate-free keys, and the byte count is exact and bounded. */
    ghost predicate Valid()
      reads this
    {
      Indexed() && curBytes == Size(lru) && curBytes <= maxBytes
    }

    ghost predicate Indexed()
      reads `lru, `index
    {
      Matches(lru, index)
    }

    constructor (max: nat)
      ensures Valid() && lru == [] && maxBytes == max
    {
      maxBytes, curBytes, lru, index := max, 0, [], map[];
    }

    /** A hit returns the bytes and moves the entry to the front. */
    method Get(path: string, offset: u64) returns (r: Option<seq<byte>>)
      requires Valid()
      modifies this
      ensures Valid() && r == Lookup(old(lru), CacheKey(path, offset))
      ensures lru == Touch(old(lru), CacheKey(path, offset))
      ensures r.None? ==> lru == old(lru) && forall i :: 0 <= i < |lru| ==> lru[i].key != CacheKey(path, offset)
      ensures r.Some? ==> MovedToFront(old(lru), Entry(CacheKey(path, offset), r.value), lru)
    {
      var key := CacheKey(path, offset);
      LookupMember(lru, key);
      if key !in index {
        return None;
      }
      var e := index[key];
      LookupOf(lru, e);
      TouchKeeps(lru, e);
      TouchMoves(lru, e);
      lru := [e] + Without(lru, key);
      r := Some(e.data);
    }

    /** Replaces the key's entry, puts the new one in front and evicts from the back. */
    method Put(path: string, offset: u64, data: seq<byte>)
      requires Valid()
      modifies this
      ensures Valid()
      ensures lru == Fit([Entry(CacheKey(path, offset), data)] + Without(old(lru), CacheKey(path, offset)), maxBytes)
    {
      hide *;
      var key := CacheKey(path, offset);
      Remove(key);
      PushFront(Entry(key, data));
      Shrink();
    }

    /** Puts an entry with a new key in front. */
    method PushFront(e: Entry)
      requires Valid() && e.key !in index
      modifies this
      ensures Indexed() && curBytes == Size(lru) && lru == [e] + old(lru)
    {
      FrontMatches(e, lru, index);
      SizeConcat([e], lru);
      SizeOfOne(e);
      hide Matches;
      hide Size;
      lru, index, curBytes := [e] + lru, index[e.key := e], curBytes + |e.data|;
    }

    /** Evicts from the back until the bytes fit. */
    method Shrink()
      requires Indexed() && curBytes == Size(lru)
      modifies this
      ensures Valid() && lru == Fit(old(lru), maxBytes)
    {
      hide Matches;
      while curBytes > maxBytes && lru != []
        invariant Indexed() && curBytes == Size(lru) && Fit(lru, maxBytes) == Fit(old(lru), maxBytes)
        decreases |lru|
      {
        EvictLru();
      }
    }

    /** The overwrite branch of `put`: an entry under the key goes, with its bytes. */
    method Remove(key: CacheKey)
      requires Valid()
      modifies this
      ensures Valid() && lru == Without(old(lru), key) && key !in index
    {
      WithoutSize(lru, key);
      WithoutDistinct(lru, key);
      LookupMember(lru, key);
      forall e ensures e in Without(lru, key) <==> e in lru && e.key != key {
        WithoutMember(lru, key, e);
      }
      if key in index {
        LookupOf(lru, index[key]);
        curBytes := curBytes - |index[key].data|;
        lru := Without(lru, key);
        index := index - {key};
      } else {
        NothingToDrop(lru, key);
      }
    }

    method EvictLru()
      requires Indexed() && curBytes == Size(lru) && lru != []
      modifies this
      ensures Indexed() && curBytes == Size(lru) && lru == old(lru[..|lru| - 1])
    {
      var back := lru[|lru| - 1];
      WithoutBack(lru, index);
      hide *;
      curBytes := curBytes - |back.data|;
      index := index - {back.key};
      lru := lru[..|lru| - 1];
      NowIndexed();
    }

    lemma {:induction false} NowIndexed()
      requires Matches(lru, index)
      ensures Indexed()
    {
    }

    /** Removes every block of a file. */
    method Evict(path: string)
      requires Valid()
      modifies this
      ensures Valid() && lru == WithoutPath(old(lru), path)
    {
      var i := 0;
      while i < |lru|
        invariant i <= |lru| && Valid()
        invariant lru[..i] + WithoutPath(lru[i..], path) == WithoutPath(old(lru), path)
        decreases |lru| - i
      {
        var key := lru[i].key;
        WithoutPathStep(lru, i, path);
        if key.path == path {
          WithoutAt(lru, i);
          Remove(key);
        } else {
          i := i + 1;
        }
      }
      assert lru[..i] == lru;
    }
  }

  lemma {:induction false} WithoutAt(l: seq<Entry>, i: nat)
    requires Distinct(l) && i < |l|
    ensures Without(l, l[i].key) == l[..i] + l[i + 1..]
  {
    if i == 0 {
      LookupMember(l[1..], l[0].key);
      NothingToDrop(l[1..], l[0].key);
    } else {
      WithoutAt(l[1..], i - 1);
      assert l[1..][..i - 1] == l[1..i] && l[1..][i..] == l[i + 1..];
    }
  }

  lemma {:induction false} WithoutBack(l: seq<Entry>, index: map<CacheKey, Entry>)
    requires Matches(l, index) && l != []
    ensures var n := |l| - 1;
            Size(l) == Size(l[..n]) + |l[n].data| && Matches(l[..n], index - {l[n].key})
  {
    var n := |l| - 1;
    WithoutAt(l, n);
    assert l[..n] + [] == l[..n];
    forall e ensures e in l[..n] <==> e in l && e.key != l[n].key {
      WithoutMember(l, l[n].key, e);
    }
    assert l[n] in l;
  }

  lemma {:induction false} WithoutPathStep(l: seq<Entry>, i: nat, path: string)
    requires i < |l|
    ensures l[..i] + WithoutPath(l[i..], path)
         == (if l[i].key.path == path then l[..i] else l[..i + 1]) + WithoutPath(l[i + 1..], path)
    ensures (l[..i] + l[i + 1..])[..i] == l[..i] && (l[..i] + l[i + 1..])[i..] == l[i + 1..]
  {
    assert l[i..][0] == l[i] && l[i..][1..] == l[i + 1..];
  }

  /** The list after a hit or a miss on the key. */
  function Touch(l: seq<Entry>, key: CacheKey): seq<Entry> {
    var r := Lookup(l, key);
    if r.None? then l else [Entry(key, r.value)] + Without(l, key)
  }

  /** The entry stands in front, and the others behind it in the order they had. */
  ghost predicate MovedToFront(l: seq<Entry>, e: Entry, m: seq<Entry>) {
    exists i :: 0 <= i < |l| && l[i] == e && m == [e] + l[..i] + l[i + 1..]
  }

  lemma {:induction false} TouchMoves(l: seq<Entry>, e: Entry)
    requires Distinct(l) && e in l
    ensures MovedToFront(l, e, [e] + Without(l, e.key))
  {
    var i :| 0 <= i < |l| && l[i] == e;
    WithoutAt(l, i);
    assert [e] + (l[..i] + l[i + 1..]) == [e] + l[..i] + l[i + 1..];
  }

  lemma {:induction false} TouchKeeps(l: seq<Entry>, e: Entry)
    requires Distinct(l) && e in l
    ensures var m := [e] + Without(l, e.key);
            Distinct(m) && Size(m) == Size(l) && forall x :: x in m <==> x in l
  {
    LookupOf(l, e);
    WithoutDistinct(l, e.key);
    WithoutSize(l, e.key);
    SizeConcat([e], Without(l, e.key));
    SizeOfOne(e);
    forall x ensures x in Without(l, e.key) <==> x in l && x.key != e.key {
      WithoutMember(l, e.key, x);
    }
    forall x | x in l && x.key == e.key ensures x == e {
      LookupOf(l, x);
    }
  }

  lemma {:induction false} FrontMatches(e: Entry, l: seq<Entry>, index: map<CacheKey, Entry>)
    requires Matches(l, index) && e.key !in index
    ensures Matches([e] + l, index[e.key := e])
  {
    assert forall x :: x in [e] + l <==> x == e || x in l;
    assert Distinct([e] + l) by {
      FrontDistinct(e, l);
    }
    hide Distinct;
  }

  lemma {:induction false} FrontDistinct(e: Entry, l: seq<Entry>)
    requires Distinct(l) && forall x :: x in l ==> x.key != e.key
    ensures Distinct([e] + l)
  {
  }

  lemma {:induction false} NothingToDrop(l: seq<Entry>, key: CacheKey)
    requires Lookup(l, key).None?
    ensures Without(l, key) == l
  {
    if l != [] {
      NothingToDrop(l[1..], key);
    }
  }

  // ---- whole runs ----

  datatype Op = GetOp(key: CacheKey) | PutOp(key: CacheKey, data: seq<byte>) | EvictOp(path: string)

  function Step(l: seq<Entry>, op: Op, bound: nat): seq<Entry> {
    match op
    case GetOp(key) => Touch(l, key)
    case PutOp(key, data) => Fit([Entry(key, data)] + Without(l, key), bound)
    case EvictOp(path) => WithoutPath(l, path)
  }

  function Run(ops: seq<Op>, bound: nat): seq<Entry> {
    if ops == [] then [] else Step(Run(ops[..|ops| - 1], bound), ops[|ops| - 1], bound)
  }

  /** The bytes last put under the key, unless its file was evicted since. */
  function LastPut(ops: seq<Op>, key: CacheKey): Option<seq<byte>> {
    if ops == [] then None
    else
      match ops[|ops| - 1]
      case PutOp(k, data) => if k == key then Some(data) else LastPut(ops[..|ops| - 1], key)
      case EvictOp(path) => if path == key.path then None else LastPut(ops[..|ops| - 1], key)
      case GetOp(_) => LastPut(ops[..|ops| - 1], key)
  }

  /** Over any run a hit yields the bytes last put, so a stale or evicted block never comes back. */
  lemma {:induction false} HitIsLastPut(ops: seq<Op>, bound: nat, e: Entry)
    requires e in Run(ops, bound)
    ensures LastPut(ops, e.key) == Some(e.data)
  {
    var l, op := Run(ops[..|ops| - 1], bound), ops[|ops| - 1];
    match op
    case GetOp(key) =>
      LookupMember(l, key);
      WithoutMember(l, key, e);
      HitIsLastPut(ops[..|ops| - 1], bound, e);
    case PutOp(key, data) =>
      var m := [Entry(key, data)] + Without(l, key);
      FitIsLongest(m, bound, 0);
      assert e in m;
      WithoutMember(l, key, e);
      if e != Entry(key, data) {
        HitIsLastPut(ops[..|ops| - 1], bound, e);
      }
    case EvictOp(path) =>
      WithoutPathMember(l, path, e);
      HitIsLastPut(ops[..|ops| - 1], bound, e);
  }

  // ---- recency over runs ----

  /** A use of a key is a put under it, or a get that finds it. */
  predicate Uses(l: seq<Entry>, op: Op, key: CacheKey) {
    match op
    case GetOp(k) => k == key && exists i :: 0 <= i < |l| && l[i].key == key
    case PutOp(k, _) => k == key
    case EvictOp(_) => false
  }

  /** How many operations had been made when the key was last used. */
  function LastUse(ops: seq<Op>, bound: nat, key: CacheKey): nat {
    if ops == [] then 0
    else
      var n := |ops| - 1;
      if Uses(Run(ops[..n], bound), ops[n], key) then n + 1 else LastUse(ops[..n], bound, key)
  }

  lemma {:induction false} LastUseBound(ops: seq<Op>, bound: nat, key: CacheKey)
    ensures LastUse(ops, bound, key) <= |ops|
  {
    if ops != [] {
      LastUseBound(ops[..|ops| - 1], bound, key);
    }
  }

  /** Entries in strictly descending order of these times. */
  ghost predicate Descending(l: seq<Entry>, time: CacheKey -> nat) {
    forall i, j :: 0 <= i < j < |l| ==> time(l[i].key) > time(l[j].key)
  }

  lemma {:induction false} DescendingTail(l: seq<Entry>, rest: seq<Entry>, time: CacheKey -> nat)
    requires l != [] && Descending(l, time) && Descending(rest, time)
    requires forall i :: 0 <= i < |rest| ==> rest[i] in l[1..]
    ensures Descending([l[0]] + rest, time)
  {
    forall i | 0 <= i < |rest| ensures time(l[0].key) > time(rest[i].key) {
      var j :| 0 <= j < |l[1..]| && l[1..][j] == rest[i];
      assert l[j + 1] == rest[i];
    }
  }

  lemma {:induction false} WithoutInOrder(l: seq<Entry>, key: CacheKey, time: CacheKey -> nat)
    requires Descending(l, time)
    ensures Descending(Without(l, key), time)
    ensures forall i :: 0 <= i < |Without(l, key)| ==> Without(l, key)[i] in l && Without(l, key)[i].key != key
  {
    if l != [] {
      assert Descending(l[1..], time);
      WithoutInOrder(l[1..], key, time);
      DescendingTail(l, Without(l[1..], key), time);
      hide Descending;
    }
  }

  lemma {:induction false} WithoutPathInOrder(l: seq<Entry>, path: string, time: CacheKey -> nat)
    requires Descending(l, time)
    ensures Descending(WithoutPath(l, path), time)
    ensures forall i :: 0 <= i < |WithoutPath(l, path)| ==> WithoutPath(l, path)[i] in l
  {
    if l != [] {
      assert Descending(l[1..], time);
      WithoutPathInOrder(l[1..], path, time);
      DescendingTail(l, WithoutPath(l[1..], path), time);
      hide Descending;
    }
  }

  /** Using a key now puts it before everything used earlier. */
  lemma {:induction false} FrontIsNewest(l: seq<Entry>, e: Entry, before: CacheKey -> nat, after: CacheKey -> nat,
      n: nat)
    requires Descending(l, before) && after(e.key) == n + 1
    requires forall k :: k != e.key ==> after(k) == before(k) <= n
    ensures Descending([e] + Without(l, e.key), after)
  {
    WithoutInOrder(l, e.key, before);
    var m := Without(l, e.key);
    hide Without;
    forall i | 0 <= i < |m| ensures after(m[i].key) == before(m[i].key) <= n {
      assert m[i].key != e.key;
    }
  }

  /** After any run the entries stand in strictly descending order of last use. */
  lemma {:induction false} RecencyOrder(ops: seq<Op>, bound: nat)
    ensures forall i, j :: 0 <= i < j < |Run(ops, bound)| ==>
              LastUse(ops, bound, Run(ops, bound)[i].key) > LastUse(ops, bound, Run(ops, bound)[j].key)
  {
    if ops != [] {
      var n := |ops| - 1;
      RecencyOrder(ops[..n], bound);
      var before := k => LastUse(ops[..n], bound, k);
      var after := k => LastUse(ops, bound, k);
      forall k ensures after(k) == if Uses(Run(ops[..n], bound), ops[n], k) then n + 1 else before(k) {
      }
      forall k ensures before(k) <= n {
        LastUseBound(ops[..n], bound, k);
      }
      StepDescends(Run(ops[..n], bound), ops[n], bound, before, after, n);
      hide Step;
      hide Uses;
    }
  }

  lemma {:induction false} StepDescends(l: seq<Entry>, op: Op, bound: nat, before: CacheKey -> nat,
      after: CacheKey -> nat, n: nat)
    requires Descending(l, before)
    requires forall k :: before(k) <= n && after(k) == if Uses(l, op, k) then n + 1 else before(k)
    ensures Descending(Step(l, op, bound), after)
  {
    match op
    case GetOp(key) =>
      LookupMember(l, key);
      if Lookup(l, key).Some? {
        var e := Entry(key, Lookup(l, key).value);
        assert e in l;
        FrontIsNewest(l, e, before, after, n);
      }
    case PutOp(key, data) =>
      var e := Entry(key, data);
      FrontIsNewest(l, e, before, after, n);
      FitIsLongest([e] + Without(l, key), bound, 0);
    case EvictOp(path) =>
      WithoutPathInOrder(l, path, before);
  }
}
