/**
 The multi-level list behind the memtable, as a structure on the heap.

 `levels` records, per level, the nodes reachable from the head; every level is
 strictly sorted and contained in the one below.
 */
module SkipLists {
  import opened Core
  import opened Wrappers

  const MAX_HEIGHT: nat := 12

  class Node {
    const key: Key
    const height: nat
    var val: Option<Event>
    var next: seq<Node?>

    constructor (k: Key, v: Option<Event>, h: nat)
      ensures key == k && val == v && height == h && |next| == h
      ensures forall i :: 0 <= i < h ==> next[i] == null
    {
      key, val, height := k, v, h;
      next := seq(h, _ => null);
    }
  }

  // ---- the specification: a strictly sorted sequence of entries ----

  datatype Entry = Entry(key: Key, val: Event)

  ghost predicate Sorted(s: seq<Entry>) {
    forall i, j :: 0 <= i < j < |s| ==> Less(s[i].key, s[j].key)
  }

  /** How many entries lie before k. */
  function Rank(s: seq<Entry>, k: Key): (r: nat)
    ensures r <= |s|
    ensures forall i :: 0 <= i < r ==> Less(s[i].key, k)
    ensures r < |s| ==> !Less(s[r].key, k)
  {
    if s == [] || !Less(s[0].key, k) then 0 else 1 + Rank(s[1..], k)
  }

  function Put(s: seq<Entry>, k: Key, v: Event): seq<Entry> {
    var r := Rank(s, k);
    if r < |s| && s[r].key == k then s[r := Entry(k, v)] else s[..r] + [Entry(k, v)] + s[r..]
  }

  ghost function MapOf(s: seq<Entry>): map<Key, Event>
    requires Sorted(s)
  {
    map x | x in s :: x.key := x.val
  }

  lemma {:induction false} PutSorted(s: seq<Entry>, k: Key, v: Event)
    requires Sorted(s)
    ensures Sorted(Put(s, k, v))
  {
  }

  lemma {:induction false} InMap(s: seq<Entry>, i: nat)
    requires Sorted(s) && i < |s|
    ensures s[i].key in MapOf(s) && MapOf(s)[s[i].key] == s[i].val
  {
    assert s[i] in s;
  }

  lemma {:induction false} KeyInMap(s: seq<Entry>, k: Key)
    requires Sorted(s)
    ensures k in MapOf(s) <==> Rank(s, k) < |s| && s[Rank(s, k)].key == k
  {
    if k in MapOf(s) {
      var x :| x in s && x.key == k;
      var i :| 0 <= i < |s| && s[i] == x;
      assert i == Rank(s, k);
    } else if Rank(s, k) < |s| {
      InMap(s, Rank(s, k));
    }
  }

  lemma {:induction false} PutKeepsOthers(s: seq<Entry>, k: Key, v: Event, x: Entry)
    requires Sorted(s)
    ensures x in Put(s, k, v) <==> x == Entry(k, v) || (x in s && x.key != k)
  {
    var r := Rank(s, k);
    var t := Put(s, k, v);
    assert t[r] == Entry(k, v);
    if x in s && x.key != k {
      var i :| 0 <= i < |s| && s[i] == x;
      assert t[if |t| == |s| || i < r then i else i + 1] == x;
    }
    if x in t && x != Entry(k, v) {
      var i :| 0 <= i < |t| && t[i] == x;
      assert x == s[if |t| == |s| || i < r then i else i - 1];
    }
  }

  /** Insertion is map update, and grows the list exactly when the key is new. */
  lemma {:induction false} PutIsMapUpdate(s: seq<Entry>, k: Key, v: Event)
    requires Sorted(s)
    ensures Sorted(Put(s, k, v))
    ensures MapOf(Put(s, k, v)) == MapOf(s)[k := v]
    ensures |Put(s, k, v)| == |s| + (if k in MapOf(s) then 0 else 1)
  {
    PutSorted(s, k, v);
    KeyInMap(s, k);
    var t := Put(s, k, v);
    forall x ensures x in t <==> x == Entry(k, v) || (x in s && x.key != k) {
      PutKeepsOthers(s, k, v, x);
    }
    hide Put;
    assert MapOf(t).Keys == MapOf(s)[k := v].Keys by {
      forall q | q in MapOf(s)[k := v].Keys ensures q in MapOf(t) {
        if q == k {
          assert Entry(k, v) in t;
        } else {
          var x :| x in s && x.key == q;
          assert x in t;
        }
      }
    }
    forall q | q in MapOf(t) ensures MapOf(t)[q] == MapOf(s)[k := v][q] {
      var x :| x in t && x.key == q;
      assert MapOf(t)[q] == x.val;
    }
  }

  class SkipList {
    const head: Node
    var maxHeight: nat
    var count: nat
    ghost var levels: seq<seq<Node>>
    ghost var succ: seq<map<Node, Node?>>
    ghost var nodes: set<Node>

    // ---- representation ----

    /** Position i on a level; position 0 is the head. */
    static ghost function At(head: Node, chain: seq<Node>, i: nat): Node
      requires i <= |chain|
    {
      if i == 0 then head else chain[i - 1]
    }

    /** Following the pointers from the head visits exactly the chain. */
    static ghost predicate Linked(h: Node, chain: seq<Node>, succ: map<Node, Node?>) {
      && (forall i :: 0 <= i <= |chain| ==> At(h, chain, i) in succ)
      && (forall i :: 0 <= i < |chain| ==> chain[i] != h && succ[At(h, chain, i)] == chain[i])
      && succ[At(h, chain, |chain|)] == null
    }

    static ghost predicate Ascending(chain: seq<Node>) {
      forall i, j :: 0 <= i < j < |chain| ==> Less(chain[i].key, chain[j].key)
    }

    static ghost predicate Within(upper: seq<Node>, lower: seq<Node>) {
      forall n :: n in upper ==> n in lower
    }

    /** Every level is a strictly ascending list inside the level below. */
    static ghost predicate Tower(h: Node, levels: seq<seq<Node>>, succ: seq<map<Node, Node?>>, maxHeight: nat) {
      && |levels| == |succ| == MAX_HEIGHT && 1 <= maxHeight <= MAX_HEIGHT
      && (forall l :: 0 <= l < MAX_HEIGHT ==> Linked(h, levels[l], succ[l]) && Ascending(levels[l]))
      && (forall j, l {:trigger Within(levels[l], levels[j])} :: 0 <= j < l < MAX_HEIGHT ==>
            Within(levels[l], levels[j]))
      && (forall l :: maxHeight <= l < MAX_HEIGHT ==> levels[l] == [])
    }

    /** `succ` is what the nodes' pointers say. */
    ghost predicate LevelAgrees(l: nat)
      reads `succ, `nodes, nodes
    {
      && l < |succ|
      && (forall x :: x in succ[l] ==> x in nodes && l < |x.next| && x.next[l] == succ[l][x])
      && (forall x :: x in nodes && l < x.height ==> x in succ[l])
    }

    ghost predicate Agrees()
      reads `succ, `nodes, nodes
    {
      && |succ| == MAX_HEIGHT
      && head in nodes && head.height == MAX_HEIGHT
      && (forall x :: x in nodes ==> |x.next| == x.height <= MAX_HEIGHT && (x != head ==> x.val.Some?))
      && (forall l :: 0 <= l < MAX_HEIGHT ==> LevelAgrees(l))
    }

    /** What every store of an insertion keeps; proved and passed around as one fact. */
    ghost predicate Shape()
      reads `maxHeight, `levels, `succ, `nodes, nodes
    {
      Agrees() && Tower(head, levels, succ, maxHeight)
    }

    /** Every node is on all the levels its height gives it. */
    static ghost predicate Complete(levels: seq<seq<Node>>) {
      |levels| == MAX_HEIGHT
        && forall l, i :: 0 <= l < MAX_HEIGHT && 0 <= i < |levels[0]| && l < levels[0][i].height ==>
             levels[0][i] in levels[l]
    }

    /** Between insertions. */
    ghost predicate Valid()
      reads this, nodes
    {
      Shape() && Complete(levels) && count == |levels[0]|
    }

    lemma {:induction false} ChainInNodes(l: nat, n: Node)
      requires Shape() && l < MAX_HEIGHT && n in levels[l]
      ensures n in nodes && n != head && n.val.Some?
    {
      ShapeAt(l);
      hide Shape;
      var i :| 0 <= i < |levels[l]| && levels[l][i] == n;
      InChain(head, levels[l], succ[l], i);
    }

    lemma {:induction false} ShapeAt(l: nat)
      requires Shape() && l < MAX_HEIGHT
      ensures |levels| == |succ| == MAX_HEIGHT && Linked(head, levels[l], succ[l])
      ensures forall x :: x in succ[l] ==> x in nodes
      ensures forall x :: x in nodes && x != head ==> x.val.Some?
    {
      assert LevelAgrees(l);
      hide Linked;
      hide Ascending;
      hide Within;
    }

    static lemma {:induction false} InChain(h: Node, chain: seq<Node>, succ: map<Node, Node?>, i: nat)
      requires Linked(h, chain, succ) && i < |chain|
      ensures chain[i] in succ && chain[i] != h
    {
      assert At(h, chain, i + 1) in succ;
    }

    /** The entries of a chain of nodes; every node but the head has a value. */
    static ghost function EntriesOf(chain: seq<Node>): (s: seq<Entry>)
      requires forall i :: 0 <= i < |chain| ==> chain[i].val.Some?
      reads chain`val
      ensures |s| == |chain|
      ensures forall i :: 0 <= i < |chain| ==> s[i] == Entry(chain[i].key, chain[i].val.value)
    {
      if chain == [] then [] else [Entry(chain[0].key, chain[0].val.value)] + EntriesOf(chain[1..])
    }

    ghost function Entries(): (s: seq<Entry>)
      requires Shape()
      reads `maxHeight, `levels, `succ, `nodes, nodes
      ensures |s| == |levels[0]| && Sorted(s)
      ensures forall i :: 0 <= i < |s| ==> s[i].key == levels[0][i].key
    {
      assert forall n :: n in levels[0] ==> n in nodes && n.val.Some? by {
        forall n | n in levels[0] ensures n in nodes && n.val.Some? {
          ChainInNodes(0, n);
        }
      }
      assert Ascending(levels[0]);
      EntriesOf(levels[0])
    }

    constructor ()
      ensures Valid() && fresh(nodes) && Entries() == []
    {
      head := new Node(MIN_KEY, None, MAX_HEIGHT);
      maxHeight, count := 1, 0;
      levels := seq(MAX_HEIGHT, _ => []);
      succ := [];
      new;
      succ := seq(MAX_HEIGHT, _ => map[head := null]);
      nodes := {head};
    }

    // ---- searching ----

    /** How many nodes of a level lie before k. */
    static ghost function RankOf(chain: seq<Node>, k: Key): (r: nat)
      ensures r <= |chain|
      ensures forall i :: 0 <= i < r ==> Less(chain[i].key, k)
      ensures r < |chain| ==> !Less(chain[r].key, k)
    {
      if chain == [] || !Less(chain[0].key, k) then 0 else 1 + RankOf(chain[1..], k)
    }

    /** x is the last node of the level before target. */
    static ghost predicate IsPred(h: Node, chain: seq<Node>, x: Node, target: Key) {
      x == At(h, chain, RankOf(chain, target))
    }

    /** x sits at position p of a level and everything up to it is below the target. */
    static ghost predicate Placed(h: Node, chain: seq<Node>, x: Node, target: Key, p: nat) {
      p <= |chain| && x == At(h, chain, p) && forall i :: 0 <= i < p ==> Less(chain[i].key, target)
    }

    ghost predicate Stands(l: int, x: Node, target: Key, p: nat)
      reads this, nodes
    {
      Shape() && 0 <= l < maxHeight && Placed(head, levels[l], x, target, p)
    }

    ghost function Ahead(l: int, p: nat): nat
      reads this
    {
      if 0 <= l < |levels| && p <= |levels[l]| then |levels[l]| - p else 0
    }

    ghost predicate PredOn(l: int, x: Node, target: Key)
      reads this
    {
      0 <= l < |levels| && IsPred(head, levels[l], x, target)
    }

    lemma {:induction false} NextNode(l: nat, x: Node, target: Key, p: nat)
      requires Stands(l, x, target, p)
      ensures l < |x.next| && l < |levels| && p <= |levels[l]|
      ensures x.next[l] == if p < |levels[l]| then levels[l][p] else null
    {
      assert Linked(head, levels[l], succ[l]) && LevelAgrees(l);
      assert x in succ[l];
    }

    lemma {:induction false} TurnRight(l: nat, x: Node, target: Key, p: nat)
      requires Stands(l, x, target, p) && p < |levels[l]| && Less(levels[l][p].key, target)
      ensures Stands(l, levels[l][p], target, p + 1) && Ahead(l, p + 1) < Ahead(l, p)
    {
      hide Less;
      hide Linked;
      hide Within;
      hide Ascending;
    }

    lemma {:induction false} TurnDown(l: nat, x: Node, target: Key, p: nat) returns (q: nat)
      requires Stands(l, x, target, p) && (p < |levels[l]| ==> !Less(levels[l][p].key, target))
      ensures PredOn(l, x, target)
      ensures l > 0 ==> Stands(l - 1, x, target, q)
    {
      PlaceIsPred(head, levels[l], x, target, p);
      q := 0;
      if p > 0 && l > 0 {
        assert Within(levels[l], levels[l - 1]);
        q := DownOnLevel(head, levels[l], levels[l - 1], x, target, p);
      }
    }

    static lemma {:induction false} DownOnLevel(h: Node, upper: seq<Node>, lower: seq<Node>, x: Node, target: Key,
        p: nat) returns (q: nat)
      requires 0 < p && Placed(h, upper, x, target, p) && Within(upper, lower) && Ascending(lower)
      ensures Placed(h, lower, x, target, q)
    {
      assert x in upper;
      q := PlaceOf(lower, x, target);
    }

    /**
     One turn of either search loop. Moving right stays in place on the level;
     otherwise x is the predecessor there, and stays in place one level down.
     */
    lemma {:induction false} SearchTurn(l: nat, x: Node, target: Key, p: nat) returns (q: nat)
      requires Stands(l, x, target, p)
      ensures l < |x.next|
      ensures x.next[l] != null && Less(x.next[l].key, target) ==>
                Stands(l, x.next[l], target, q) && Ahead(l, q) < Ahead(l, p)
      ensures !(x.next[l] != null && Less(x.next[l].key, target)) ==>
                PredOn(l, x, target) && (l > 0 ==> Stands(l - 1, x, target, q))
    {
      hide *;
      NextNode(l, x, target, p);
      if p < |levels[l]| && Less(levels[l][p].key, target) {
        TurnRight(l, x, target, p);
        q := p + 1;
      } else {
        q := TurnDown(l, x, target, p);
      }
    }

    static lemma {:induction false} PlaceIsPred(h: Node, chain: seq<Node>, x: Node, target: Key, p: nat)
      requires Placed(h, chain, x, target, p) && (p < |chain| ==> !Less(chain[p].key, target))
      ensures IsPred(h, chain, x, target) && p == RankOf(chain, target)
    {
      var r := RankOf(chain, target);
      assert r < |chain| ==> !Less(chain[r].key, target);
      assert p < |chain| ==> !Less(chain[p].key, target);
    }

    static lemma {:induction false} PlaceOf(chain: seq<Node>, x: Node, target: Key) returns (q: nat)
      requires x in chain && Ascending(chain) && Less(x.key, target)
      ensures 0 < q <= |chain| && chain[q - 1] == x
      ensures forall i :: 0 <= i < q ==> Less(chain[i].key, target)
    {
      var i :| 0 <= i < |chain| && chain[i] == x;
      q := i + 1;
      forall j | 0 <= j < i ensures Less(chain[j].key, target) {
        LessTransitive(chain[j].key, x.key, target);
      }
    }

    lemma {:induction false} StartsOnTop(target: Key)
      requires Shape()
      ensures 1 <= maxHeight <= MAX_HEIGHT && Stands(maxHeight - 1, head, target, 0)
    {
    }

    /** Fills prev[0..maxHeight-1] with the predecessors of target; x is the one on level 0. */
    method FindPrev(target: Key) returns (x: Node, prev: seq<Node>)
      requires Shape()
      ensures |prev| == MAX_HEIGHT && x == prev[0]
      ensures forall l :: 0 <= l < maxHeight ==> PredOn(l, prev[l], target)
    {
      hide *;
      StartsOnTop(target);
      x := head;
      prev := seq(MAX_HEIGHT, _ => head);
      var lvl := maxHeight - 1;
      ghost var p: nat := 0;
      while true
        invariant 0 <= lvl < maxHeight && |prev| == MAX_HEIGHT && Stands(lvl, x, target, p)
        invariant forall l :: lvl < l < maxHeight ==> PredOn(l, prev[l], target)
        decreases lvl, Ahead(lvl, p)
      {
        p := SearchTurn(lvl, x, target, p);
        var nx := x.next[lvl];
        if nx != null && Less(nx.key, target) {
          x := nx;
        } else {
          prev := prev[lvl := x];
          if lvl == 0 {
            return;
          }
          lvl := lvl - 1;
        }
      }
    }

    /** The node with the least key not below target, or null. */
    method FindFirstGe(target: Key) returns (nx: Node?)
      requires Shape()
      ensures var r := Rank(Entries(), target); nx == if r < |levels[0]| then levels[0][r] else null
    {
      hide *;
      StartsOnTop(target);
      var x: Node := head;
      var lvl := maxHeight - 1;
      ghost var p: nat := 0;
      while true
        invariant 0 <= lvl < maxHeight && Stands(lvl, x, target, p)
        decreases lvl, Ahead(lvl, p)
      {
        p := SearchTurn(lvl, x, target, p);
        nx := x.next[lvl];
        if nx != null && Less(nx.key, target) {
          x := nx;
        } else {
          if lvl == 0 {
            SuccessorIsRank(x, target);
            return;
          }
          lvl := lvl - 1;
        }
      }
    }

    lemma {:induction false} SuccessorIsRank(x: Node, target: Key)
      requires Shape() && PredOn(0, x, target)
      ensures 0 < |x.next|
      ensures Rank(Entries(), target) == RankOf(levels[0], target)
      ensures var r := Rank(Entries(), target); x.next[0] == if r < |levels[0]| then levels[0][r] else null
    {
      var r := RankOf(levels[0], target);
      assert Linked(head, levels[0], succ[0]) && LevelAgrees(0);
      assert x in succ[0];
      RankUnique(Entries(), target, r);
    }

    static lemma {:induction false} RankUnique(s: seq<Entry>, k: Key, p: nat)
      requires p <= |s| && (forall i :: 0 <= i < p ==> Less(s[i].key, k)) && (p < |s| ==> !Less(s[p].key, k))
      ensures Rank(s, k) == p
    {
    }

    // ---- insertion ----

    static ghost function With(chain: seq<Node>, n: Node): seq<Node> {
      var r := RankOf(chain, n.key);
      chain[..r] + [n] + chain[r..]
    }

    /** No node of the level has the key k. */
    static ghost predicate Lacks(chain: seq<Node>, k: Key) {
      forall i :: 0 <= i < |chain| ==> chain[i].key != k
    }

    static lemma {:induction false} WithAscends(chain: seq<Node>, n: Node)
      requires Ascending(chain) && Lacks(chain, n.key)
      ensures Ascending(With(chain, n))
    {
      var r := RankOf(chain, n.key);
      forall i | r <= i < |chain| ensures Less(n.key, chain[i].key) {
        if r < i {
          assert Less(chain[r].key, chain[i].key);
        }
      }
    }

    /** The pointers of a level after n was linked in behind p. */
    static ghost function Spliced(succ: map<Node, Node?>, p: Node, n: Node): map<Node, Node?>
      requires p in succ
    {
      var m: map<Node, Node?> := succ[n := succ[p]];
      m[p := n]
    }

    static lemma {:induction false} SplicedAt(succ: map<Node, Node?>, p: Node, n: Node, x: Node)
      requires p in succ && p != n
      ensures x in Spliced(succ, p, n) <==> x in succ || x == n
      ensures x in Spliced(succ, p, n) ==>
                Spliced(succ, p, n)[x] == if x == p then n else if x == n then succ[p] else succ[x]
    {
    }

    static lemma {:induction false} Distinct(h: Node, chain: seq<Node>, i: nat, j: nat)
      requires Ascending(chain) && h !in chain && i < j <= |chain|
      ensures At(h, chain, i) != At(h, chain, j)
    {
      if i > 0 {
        assert Less(chain[i - 1].key, chain[j - 1].key);
      }
    }

    static lemma {:induction false} InsertedAt(h: Node, chain: seq<Node>, n: Node, r: nat, i: nat)
      requires r <= |chain| && i <= |chain| + 1
      ensures var c := chain[..r] + [n] + chain[r..];
              && At(h, c, i) == (if i <= r then At(h, chain, i) else if i == r + 1 then n else At(h, chain, i - 1))
              && (i < |c| ==> c[i] == if i < r then chain[i] else if i == r then n else chain[i - 1])
    {
    }

    static lemma {:induction false} NotAt(h: Node, chain: seq<Node>, n: Node, i: nat)
      requires n != h && n !in chain && i <= |chain|
      ensures At(h, chain, i) != n
    {
    }

    static lemma {:induction false} SuccAt(h: Node, chain: seq<Node>, succ: map<Node, Node?>, k: nat)
      requires Linked(h, chain, succ) && k <= |chain|
      ensures At(h, chain, k) in succ
      ensures k < |chain| ==> succ[At(h, chain, k)] == chain[k]
      ensures k == |chain| ==> succ[At(h, chain, k)] == null
    {
    }

    /** Linking n behind position r puts it into the chain there. */
    static lemma {:induction false} LinkedAt(h: Node, chain: seq<Node>, succ: map<Node, Node?>, n: Node, r: nat, i: nat)
      requires Linked(h, chain, succ) && Ascending(chain)
      requires n != h && n !in chain && r <= |chain| && i <= |chain| + 1
      ensures var p, c := At(h, chain, r), chain[..r] + [n] + chain[r..];
              p in succ && At(h, c, i) in Spliced(succ, p, n)
              && Spliced(succ, p, n)[At(h, c, i)] == if i < |c| then c[i] else null
    {
      var p, c := At(h, chain, r), chain[..r] + [n] + chain[r..];
      var k := if i <= r then i else i - 1;
      assert h !in chain;
      SuccAt(h, chain, succ, r);
      SuccAt(h, chain, succ, k);
      hide *;
      NotAt(h, chain, n, r);
      InsertedAt(h, chain, n, r, i);
      SplicedAt(succ, p, n, At(h, c, i));
      if i < r {
        Distinct(h, chain, i, r);
        NotAt(h, chain, n, i);
      } else if i > r + 1 {
        Distinct(h, chain, r, i - 1);
        NotAt(h, chain, n, i - 1);
      }
    }

    static lemma {:induction false} LinkedWith(h: Node, chain: seq<Node>, succ: map<Node, Node?>, n: Node)
      requires Linked(h, chain, succ) && Ascending(chain)
      requires n != h && n !in chain
      ensures var p := At(h, chain, RankOf(chain, n.key));
              p in succ && Linked(h, With(chain, n), Spliced(succ, p, n))
    {
      var r := RankOf(chain, n.key);
      forall i | 0 <= i <= |chain| + 1 {
        LinkedAt(h, chain, succ, n, r, i);
      }
    }

    static lemma {:induction false} TowerWith(h: Node, levels: seq<seq<Node>>, succ: seq<map<Node, Node?>>,
        maxHeight: nat, i: nat, n: Node)
      requires Tower(h, levels, succ, maxHeight) && i < maxHeight
      requires n != h && n !in levels[i] && Lacks(levels[i], n.key) && (forall j :: 0 <= j < i ==> n in levels[j])
      ensures var p := At(h, levels[i], RankOf(levels[i], n.key));
              p in succ[i]
              && Tower(h, levels[i := With(levels[i], n)], succ[i := Spliced(succ[i], p, n)], maxHeight)
    {
      assert Linked(h, levels[i], succ[i]) && Ascending(levels[i]);
      LinkedWith(h, levels[i], succ[i], n);
      WithAscends(levels[i], n);
      hide Spliced;
      hide With;
      hide Linked;
      hide Ascending;
      var levels' := levels[i := With(levels[i], n)];
      forall j, l {:trigger Within(levels'[l], levels'[j])} | 0 <= j < l < MAX_HEIGHT
        ensures Within(levels'[l], levels'[j]) {
        assert Within(levels[l], levels[j]);
        forall x | x in levels'[l] ensures x in levels'[j] {
          WithHolds(levels[i], n, x);
        }
      }
    }

    static lemma {:induction false} WithHolds(chain: seq<Node>, n: Node, x: Node)
      ensures x in With(chain, n) <==> x == n || x in chain
    {
      var r := RankOf(chain, n.key);
      assert chain == chain[..r] + chain[r..];
      assert With(chain, n)[r] == n;
    }

    // ---- insertion, store by store ----

    /** The two stores on one level: n's own pointer, then its predecessor's. */
    method Splice(i: nat, p: Node, n: Node)
      requires Agrees() && i < MAX_HEIGHT && p in succ[i] && n in succ[i] && p != n
      modifies this`succ, p`next, n`next
      ensures Agrees() && succ == old(succ)[i := Spliced(old(succ[i]), p, n)]
    {
      hide Spliced;
      assert LevelAgrees(i);
      n.next := n.next[i := p.next[i]];
      p.next := p.next[i := n];
      succ := succ[i := Spliced(succ[i], p, n)];
      forall l | 0 <= l < MAX_HEIGHT ensures LevelAgrees(l) {
        assert old(LevelAgrees(l));
        if l == i {
          forall x | x in succ[i] ensures x in nodes && i < |x.next| && x.next[i] == succ[i][x] {
            SplicedAt(old(succ[i]), p, n, x);
          }
          forall x | x in nodes && i < x.height ensures x in succ[i] {
            SplicedAt(old(succ[i]), p, n, x);
          }
        } else {
          assert succ[l] == old(succ[l]);
        }
      }
    }

    /** Links n into level i. The level then holds n, and nothing else has moved. */
    method Link(i: nat, p: Node, n: Node)
      requires Shape() && i < n.height && i < maxHeight && n in nodes && n != head
      requires n !in levels[i] && Lacks(levels[i], n.key) && IsPred(head, levels[i], p, n.key)
      requires forall j :: 0 <= j < i ==> n in levels[j]
      modifies this`levels, this`succ, p`next, n`next
      ensures Shape() && levels == old(levels)[i := With(old(levels[i]), n)]
    {
      hide *;
      LinkReady(i, p, n);
      Splice(i, p, n);
      levels := levels[i := With(levels[i], n)];
      assert Tower(head, levels, succ, maxHeight);
      ShapeFrom();
    }

    lemma {:induction false} LinkReady(i: nat, p: Node, n: Node)
      requires Shape() && i < n.height && i < maxHeight && n in nodes && n != head
      requires n !in levels[i] && Lacks(levels[i], n.key) && IsPred(head, levels[i], p, n.key)
      requires forall j :: 0 <= j < i ==> n in levels[j]
      ensures Agrees() && i < MAX_HEIGHT == |levels| == |succ| && p in succ[i] && n in succ[i] && p != n
      ensures Tower(head, levels[i := With(levels[i], n)], succ[i := Spliced(succ[i], p, n)], maxHeight)
    {
      assert LevelAgrees(i) && n in succ[i];
      TowerWith(head, levels, succ, maxHeight, i, n);
    }

    lemma {:induction false} ShapeFrom()
      requires Agrees() && Tower(head, levels, succ, maxHeight)
      ensures Shape()
    {
    }

    static lemma {:induction false} TowerExtends(h: Node, levels: seq<seq<Node>>, a: seq<map<Node, Node?>>,
        b: seq<map<Node, Node?>>, m: nat, m': nat)
      requires Tower(h, levels, a, m) && |b| == MAX_HEIGHT && m <= m' <= MAX_HEIGHT
      requires forall l, x :: 0 <= l < MAX_HEIGHT && x in a[l] ==> x in b[l] && b[l][x] == a[l][x]
      ensures Tower(h, levels, b, m')
    {
      hide Ascending;
      hide Within;
      forall l | 0 <= l < MAX_HEIGHT ensures Linked(h, levels[l], b[l]) {
        assert Linked(h, levels[l], a[l]);
      }
    }

    /** Raising the height of the list exposes empty levels only. */
    method RaiseHeight(h: nat)
      requires Shape() && maxHeight <= h <= MAX_HEIGHT
      modifies this`maxHeight
      ensures Shape() && maxHeight == h
    {
      TowerExtends(head, levels, succ, succ, maxHeight, h);
      maxHeight := h;
    }

    /** Allocates a node that no level holds yet. */
    method NewNode(k: Key, v: Event, h: nat) returns (n: Node)
      requires Shape() && 1 <= h <= MAX_HEIGHT
      modifies this`nodes, this`succ
      ensures Shape() && fresh(n) && nodes == old(nodes) + {n}
      ensures n.key == k && n.height == h && n.val == Some(v)
      ensures forall l, x :: 0 <= l < MAX_HEIGHT && x in levels[l] ==> x in old(nodes)
    {
      forall l, x | 0 <= l < MAX_HEIGHT && x in levels[l] ensures x in nodes {
        ChainInNodes(l, x);
      }
      ghost var before := succ;
      n := new Node(k, Some(v), h);
      Register(n);
      TowerExtends(head, levels, before, succ, maxHeight, maxHeight);
    }

    ghost method Register(n: Node)
      requires Agrees() && n !in nodes && n.height <= MAX_HEIGHT && |n.next| == n.height && n.val.Some?
      requires forall i :: 0 <= i < n.height ==> n.next[i] == null
      modifies this`nodes, this`succ
      ensures Agrees() && nodes == old(nodes) + {n}
      ensures forall l, x :: 0 <= l < MAX_HEIGHT && x in old(succ[l]) ==> x in succ[l] && succ[l][x] == old(succ[l][x])
    {
      ghost var before := succ;
      nodes := nodes + {n};
      succ := seq(MAX_HEIGHT, l requires 0 <= l < MAX_HEIGHT =>
        if l < n.height then before[l][n := null] else before[l]);
      forall l | 0 <= l < MAX_HEIGHT
        ensures LevelAgrees(l) && forall x :: x in before[l] ==> x in succ[l] && succ[l][x] == before[l][x]
      {
        assert old(LevelAgrees(l));
      }
    }

    /** Publishes n bottom up, one level at a time; each pass leaves every level a sorted list. */
    method LinkAll(n: Node, prev: seq<Node>)
      requires Shape() && n in nodes && n != head && n.height <= maxHeight && |prev| == MAX_HEIGHT
      requires forall l :: 0 <= l < MAX_HEIGHT ==> n !in levels[l] && Lacks(levels[l], n.key)
      requires forall l :: 0 <= l < n.height ==> prev[l] in nodes && IsPred(head, levels[l], prev[l], n.key)
      modifies this`levels, this`succ, nodes`next
      ensures Shape() && |levels| == MAX_HEIGHT
      ensures forall l :: 0 <= l < MAX_HEIGHT ==>
                levels[l] == if l < n.height then With(old(levels[l]), n) else old(levels[l])
    {
      ghost var was := levels;
      assert |was| == MAX_HEIGHT;
      hide *;
      for i := 0 to n.height
        invariant Shape() && |levels| == MAX_HEIGHT
        invariant forall l :: 0 <= l < MAX_HEIGHT ==> levels[l] == if l < i then With(was[l], n) else was[l]
      {
        forall j | 0 <= j < i ensures n in levels[j] {
          WithHolds(was[j], n, n);
        }
        Link(i, prev[i], n);
      }
    }

    static lemma {:induction false} EntriesWith(chain: seq<Node>, n: Node)
      requires n.val.Some? && forall x :: x in chain ==> x.val.Some?
      requires Lacks(chain, n.key)
      ensures forall x :: x in With(chain, n) ==> x.val.Some?
      ensures EntriesOf(With(chain, n)) == Put(EntriesOf(chain), n.key, n.val.value)
    {
      hide Less;
      hide EntriesOf;
      var r, c, s := RankOf(chain, n.key), With(chain, n), EntriesOf(chain);
      RankUnique(s, n.key, r);
      assert r < |chain| ==> s[r].key != n.key;
      var t := Put(s, n.key, n.val.value);
      assert t == s[..r] + [Entry(n.key, n.val.value)] + s[r..];
      hide Put;
      forall i | 0 <= i < |c| ensures c[i].val.Some? && Entry(c[i].key, c[i].val.value) == t[i] {
        assert c[i] == if i < r then chain[i] else if i == r then n else chain[i - 1];
      }
      hide With;
      assert EntriesOf(c) == t;
    }

    lemma {:induction false} AllLack(k: Key)
      requires Shape() && var r := RankOf(levels[0], k); r < |levels[0]| ==> levels[0][r].key != k
      ensures forall l :: 0 <= l < MAX_HEIGHT ==> Lacks(levels[l], k)
    {
      assert Ascending(levels[0]);
      forall l, i | 0 <= l < MAX_HEIGHT && 0 <= i < |levels[l]| ensures levels[l][i].key != k {
        if l > 0 {
          assert Within(levels[l], levels[0]);
        }
        assert levels[l][i] in levels[0];
        var j :| 0 <= j < |levels[0]| && levels[0][j] == levels[l][i];
        var r := RankOf(levels[0], k);
        assert r < j ==> Less(levels[0][r].key, levels[0][j].key);
      }
    }

    method StoreValue(x: Node, v: Event)
      requires Agrees() && x in nodes
      modifies x`val
      ensures Agrees() && x.val == Some(v)
    {
      assert forall l :: 0 <= l < MAX_HEIGHT ==> LevelAgrees(l);
      x.val := Some(v);
      assert forall l :: 0 <= l < MAX_HEIGHT ==> old(LevelAgrees(l)) ==> LevelAgrees(l);
    }

    static lemma {:induction false} OtherKeys(chain: seq<Node>, i: nat, j: nat)
      requires Ascending(chain) && i < |chain| && j < |chain| && i != j
      ensures chain[i] != chain[j]
    {
      assert Less(chain[i].key, chain[j].key) || Less(chain[j].key, chain[i].key);
    }

    lemma {:induction false} EntryAt(i: nat)
      requires Shape() && i < |levels[0]|
      ensures levels[0][i].val.Some? && Entries()[i] == Entry(levels[0][i].key, levels[0][i].val.value)
    {
      ChainInNodes(0, levels[0][i]);
    }

    /** Swaps the value of an existing key; the structure does not move. */
    method Replace(x: Node, k: Key, v: Event)
      requires Shape() && var r := RankOf(levels[0], k); r < |levels[0]| && levels[0][r] == x && x.key == k
      modifies x`val
      ensures Shape() && Entries() == Put(old(Entries()), k, v)
    {
      ghost var r, chain, was := RankOf(levels[0], k), levels[0], Entries();
      ChainInNodes(0, x);
      RankUnique(was, k, r);
      assert Ascending(chain);
      forall i | 0 <= i < |chain| ensures chain[i].val.Some? && was[i] == Entry(chain[i].key, chain[i].val.value) {
        EntryAt(i);
      }
      hide Tower;
      hide Agrees;
      hide Ascending;
      StoreValue(x, v);
      forall i | 0 <= i < |chain| ensures Entries()[i] == was[r := Entry(k, v)][i] {
        EntryAt(i);
        if i != r {
          OtherKeys(chain, i, r);
        }
      }
    }

    lemma {:induction false} PredInNodes(l: nat, x: Node, k: Key)
      requires Shape() && PredOn(l, x, k)
      ensures x in nodes
    {
      assert Linked(head, levels[l], succ[l]) && LevelAgrees(l);
      assert x in succ[l];
    }

    static lemma {:induction false} CompleteWith(was: seq<seq<Node>>, now: seq<seq<Node>>, n: Node)
      requires Complete(was) && |now| == MAX_HEIGHT && 0 < n.height
      requires forall l :: 0 <= l < MAX_HEIGHT ==> now[l] == if l < n.height then With(was[l], n) else was[l]
      ensures Complete(now) && |now[0]| == |was[0]| + 1
    {
      forall l, i | 0 <= l < MAX_HEIGHT && 0 <= i < |now[0]| && l < now[0][i].height ensures now[0][i] in now[l] {
        var x := now[0][i];
        WithHolds(was[0], n, x);
        WithHolds(was[l], n, x);
        if x != n {
          var j :| 0 <= j < |was[0]| && was[0][j] == x;
        }
      }
    }

    lemma {:induction false} EntriesAreThese()
      requires Shape()
      ensures (forall x :: x in levels[0] ==> x.val.Some?) && Entries() == EntriesOf(levels[0])
    {
      forall x | x in levels[0] ensures x.val.Some? {
        ChainInNodes(0, x);
      }
    }

    /** Levels the list has not used yet are preceded by the head. */
    method FillFromHead(preds: seq<Node>, k: Key, h: nat) returns (prev: seq<Node>)
      requires Shape() && |preds| == MAX_HEIGHT && h <= MAX_HEIGHT
      requires forall l :: 0 <= l < maxHeight ==> PredOn(l, preds[l], k)
      ensures |prev| == MAX_HEIGHT && forall l :: 0 <= l < h ==> PredOn(l, prev[l], k) && prev[l] in nodes
    {
      prev := preds;
      if h > maxHeight {
        for i := maxHeight to h
          invariant |prev| == MAX_HEIGHT && forall l :: 0 <= l < i ==> PredOn(l, prev[l], k)
        {
          assert levels[i] == [];
          prev := prev[i := head];
        }
      }
      forall l | 0 <= l < h ensures prev[l] in nodes {
        PredInNodes(l, prev[l], k);
      }
    }

    /** Raises the list if need be, then allocates and links a tower for a new key. */
    method AddTower(k: Key, v: Event, h: nat, preds: seq<Node>) returns (n: Node)
      requires Shape() && 1 <= h <= MAX_HEIGHT && |preds| == MAX_HEIGHT
      requires forall l :: 0 <= l < MAX_HEIGHT ==> Lacks(levels[l], k)
      requires forall l :: 0 <= l < maxHeight ==> PredOn(l, preds[l], k)
      modifies this`maxHeight, this`levels, this`succ, this`nodes, nodes`next
      ensures Shape() && fresh(n) && nodes == old(nodes) + {n}
      ensures n.key == k && n.height == h && n.val == Some(v) && |levels| == MAX_HEIGHT
      ensures forall l :: 0 <= l < MAX_HEIGHT ==> levels[l] == if l < h then With(old(levels[l]), n) else old(levels[l])
    {
      hide Shape;
      hide With;
      hide Lacks;
      var prev := FillFromHead(preds, k, h);
      if h > maxHeight {
        RaiseHeight(h);
      }
      n := NewNode(k, v, h);
      LinkAll(n, prev);
    }

    /** The insertion of a key that is not there yet. */
    method InsertNew(k: Key, v: Event, h: nat, preds: seq<Node>)
      requires Shape() && |levels| == MAX_HEIGHT && 1 <= h <= MAX_HEIGHT && |preds| == MAX_HEIGHT
      requires forall l :: 0 <= l < MAX_HEIGHT ==> Lacks(levels[l], k)
      requires forall l :: 0 <= l < maxHeight ==> PredOn(l, preds[l], k)
      modifies this, nodes
      ensures Shape() && |levels| == MAX_HEIGHT && (old(Complete(levels)) ==> Complete(levels))
      ensures fresh(nodes - old(nodes)) && count == old(count) + 1 && |levels[0]| == old(|levels[0]|) + 1
      ensures Entries() == Put(old(Entries()), k, v)
    {
      ghost var was := levels;
      hide *;
      EntriesAreThese();
      ghost var entries := EntriesOf(levels[0]);
      var n := AddTower(k, v, h, preds);
      assert entries == EntriesOf(was[0]);
      count := count + 1;
      NewEntries(was, n, entries);
    }

    lemma {:induction false} NewEntries(was: seq<seq<Node>>, n: Node, entries: seq<Entry>)
      requires Shape() && |levels| == |was| == MAX_HEIGHT && 0 < n.height && n.val.Some?
      requires forall l :: 0 <= l < MAX_HEIGHT ==> levels[l] == if l < n.height then With(was[l], n) else was[l]
      requires Lacks(was[0], n.key) && (forall x :: x in was[0] ==> x.val.Some?) && entries == EntriesOf(was[0])
      ensures Complete(was) ==> Complete(levels)
      ensures |levels[0]| == |was[0]| + 1
      ensures Entries() == Put(entries, n.key, n.val.value)
    {
      if Complete(was) {
        CompleteWith(was, levels, n);
      }
      EntriesWith(was[0], n);
      EntriesAreThese();
    }

    lemma {:induction false} ValidFacts()
      requires Valid()
      ensures Shape() && |levels| == MAX_HEIGHT && Complete(levels) && count == |levels[0]|
    {
    }

    lemma {:induction false} ValidFrom()
      requires Shape() && Complete(levels) && count == |levels[0]|
      ensures Valid()
    {
    }

    /** The first node not before k, with the predecessors of k on every level in use. */
    method Locate(k: Key) returns (x: Node?, prev: seq<Node>)
      requires Shape()
      ensures |prev| == MAX_HEIGHT && forall l :: 0 <= l < maxHeight ==> PredOn(l, prev[l], k)
      ensures x != null && x.key == k ==>
                x in nodes && var r := RankOf(levels[0], k); r < |levels[0]| && levels[0][r] == x
      ensures x == null || x.key != k ==> forall l :: 0 <= l < MAX_HEIGHT ==> Lacks(levels[l], k)
    {
      assert 0 < maxHeight && 0 < |levels|;
      var p: Node;
      p, prev := FindPrev(k);
      SuccessorIsRank(p, k);
      x := p.next[0];
      hide Shape;
      if x != null && x.key == k {
        ChainInNodes(0, x);
      } else {
        AllLack(k);
      }
    }

    /** Insert or replace, for whatever height is drawn. */
    method Insert(k: Key, v: Event, h: nat)
      requires Valid() && 1 <= h <= MAX_HEIGHT
      modifies this, nodes
      ensures Valid() && fresh(nodes - old(nodes))
      ensures Entries() == Put(old(Entries()), k, v)
    {
      hide *;
      ValidFacts();
      var x, prev := Locate(k);
      if x != null {
        LessTotal(x.key, k);
      }
      if x != null && !Less(x.key, k) && !Less(k, x.key) {
        Replace(x, k, v);
      } else {
        InsertNew(k, v, h, prev);
      }
      ValidFrom();
    }

    // ---- iteration along level 0 ----

    /** The iterator stands on entry i, or past the end. */
    ghost predicate OnEntry(node: Node?, i: nat)
      reads `maxHeight, `levels, `succ, `nodes, nodes
    {
      (Shape() && i <= |Entries()| && node == if i < |levels[0]| then levels[0][i] else null)
    }

    method Seek(target: Key) returns (node: Node?, ghost i: nat)
      requires Shape()
      ensures OnEntry(node, i) && i == Rank(Entries(), target) && (node == null <==> i == |Entries()|)
    {
      node := FindFirstGe(target);
      i := Rank(Entries(), target);
    }

    method SeekToFirst() returns (node: Node?)
      requires Shape()
      ensures OnEntry(node, 0) && (node == null <==> 0 == |Entries()|)
    {
      assert Linked(head, levels[0], succ[0]) && LevelAgrees(0);
      assert At(head, levels[0], 0) == head && head in succ[0];
      node := head.next[0];
    }

    method Value(node: Node, ghost i: nat) returns (v: Event)
      requires OnEntry(node, i)
      ensures i < |Entries()| && Entries()[i] == Entry(node.key, v)
    {
      EntryAt(i);
      v := node.val.value;
    }

    method Next(node: Node, ghost i: nat) returns (nx: Node?)
      requires OnEntry(node, i)
      ensures i < |Entries()| && OnEntry(nx, i + 1) && (nx == null <==> i + 1 == |Entries()|)
    {
      assert Linked(head, levels[0], succ[0]) && LevelAgrees(0);
      assert At(head, levels[0], i + 1) == node && node in succ[0];
      nx := node.next[0];
    }

    /** Membership: the first node not before k carries k. */
    method Contains(k: Key) returns (b: bool)
      requires Valid()
      ensures b <==> k in MapOf(Entries())
    {
      var x := FindFirstGe(k);
      KeyInMap(Entries(), k);
      if x != null {
        LessTotal(x.key, k);
      }
      b := x != null && !Less(k, x.key) && !Less(x.key, k);
    }
  }
}
