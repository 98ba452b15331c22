/**
 The skip list under concurrency: one writer, any number of lock-free readers.

 Every store of an insertion and every load of a reader is one atomic step, and
 steps of different threads interleave freely. Nodes are cells of a growing heap;
 cell 0 is the head.
 */
module SkipListSteps {
  import opened Core
  import opened Wrappers

  const MAX_HEIGHT: nat := 12

  type Ref = nat

  /** A node; its height is the length of `next`. */
  datatype Cell = Cell(key: Key, val: Event, next: seq<Option<Ref>>)

  datatype Writer =
    | Idle
    | Found(k: Key, v: Event, h: nat, prev: seq<Ref>)
    | Linking(n: Ref, prev: seq<Ref>, level: nat, own: bool)

  datatype Seen = Seen(key: Key, val: Event)

  datatype Reader =
    | Resting
    | Seeking(target: Key, x: Ref, level: nat)
    | Reading(target: Key, node: Option<Ref>, visited: bool, seen: seq<Seen>, present: set<Key>)

  /** `history` lists every pair ever handed to an insertion, in order. */
  datatype State = State(cells: seq<Cell>, maxHeight: nat, count: nat, writer: Writer, readers: seq<Reader>,
      history: seq<Seen>)

  // ---- levels ----

  function At(c: seq<Ref>, i: nat): Ref
    requires i <= |c|
  {
    if i == 0 then 0 else c[i - 1]
  }

  ghost predicate HasLevel(cells: seq<Cell>, r: Ref, l: nat) {
    r < |cells| && l < |cells[r].next|
  }

  ghost predicate LevelAt(cells: seq<Cell>, l: nat, c: seq<Ref>, i: nat)
    requires i <= |c|
  {
    && HasLevel(cells, At(c, i), l)
    && cells[At(c, i)].next[l] == (if i < |c| then Some(c[i]) else None)
    && (i < |c| ==> c[i] != 0)
  }

  /** Following the pointers of level l from the head visits c and ends. */
  ghost predicate IsLevel(cells: seq<Cell>, l: nat, c: seq<Ref>) {
    forall i :: 0 <= i <= |c| ==> LevelAt(cells, l, c, i)
  }

  lemma {:induction false} SamePrefix(cells: seq<Cell>, l: nat, c: seq<Ref>, d: seq<Ref>, i: nat)
    requires IsLevel(cells, l, c) && IsLevel(cells, l, d) && i <= |c|
    ensures i <= |d| && c[..i] == d[..i] && At(c, i) == At(d, i)
  {
    if i > 0 {
      SamePrefix(cells, l, c, d, i - 1);
      assert LevelAt(cells, l, c, i - 1) && LevelAt(cells, l, d, i - 1);
      assert c[..i] == c[..i - 1] + [c[i - 1]] && d[..i] == d[..i - 1] + [d[i - 1]];
    }
  }

  lemma {:induction false} LevelUnique(cells: seq<Cell>, l: nat, c: seq<Ref>, d: seq<Ref>)
    requires IsLevel(cells, l, c) && IsLevel(cells, l, d)
    ensures c == d
  {
    SamePrefix(cells, l, c, d, |c|);
    SamePrefix(cells, l, d, c, |d|);
    assert c == c[..|c|] && d == d[..|d|];
  }

  /** The nodes on level l in order. */
  ghost function Level(cells: seq<Cell>, l: nat): seq<Ref> {
    if exists c :: IsLevel(cells, l, c) then var c :| IsLevel(cells, l, c); c else []
  }

  lemma {:induction false} LevelIs(cells: seq<Cell>, l: nat, c: seq<Ref>)
    requires IsLevel(cells, l, c)
    ensures Level(cells, l) == c
  {
    LevelUnique(cells, l, c, Level(cells, l));
  }

  ghost predicate Ascending(cells: seq<Cell>, c: seq<Ref>) {
    && (forall i :: 0 <= i < |c| ==> c[i] < |cells|)
    && (forall i, j :: 0 <= i < j < |c| ==> Less(cells[c[i]].key, cells[c[j]].key))
  }

  /** x is the last node of the level before k. */
  ghost predicate IsPred(cells: seq<Cell>, c: seq<Ref>, x: Ref, k: Key) {
    exists r: nat :: PredAt(cells, c, x, k, r)
  }

  ghost predicate PredAt(cells: seq<Cell>, c: seq<Ref>, x: Ref, k: Key, r: nat) {
    && r <= |c| && x == At(c, r)
    && (forall i :: 0 <= i < |c| ==> c[i] < |cells|)
    && (forall i :: 0 <= i < r ==> Less(cells[c[i]].key, k))
    && (forall i :: r <= i < |c| ==> Less(k, cells[c[i]].key))
  }

  ghost function Keys(cells: seq<Cell>): set<Key> {
    set r | r in Level(cells, 0) && r < |cells| :: cells[r].key
  }

  // ---- steps ----

  function NewCells(h: nat): seq<Option<Ref>> {
    seq(h, _ => None)
  }

  ghost predicate Init(s: State) {
    && s.cells == [Cell(MIN_KEY, Event(0, 0, 0, 0, 0, 0, 0, 0, 0, 0, 0), NewCells(MAX_HEIGHT))]
    && s.maxHeight == 1 && s.count == 0 && s.writer == Idle && s.history == []
    && forall i :: 0 <= i < |s.readers| ==> s.readers[i] == Resting
  }

  function StoreNext(cells: seq<Cell>, r: Ref, l: nat, to: Option<Ref>): seq<Cell>
    requires r < |cells| && l < |cells[r].next|
  {
    cells[r := cells[r].(next := cells[r].next[l := to])]
  }

  /** An existing key: its value pointer is swapped in one store. */
  ghost predicate Replace(s: State, t: State, r: Ref, v: Event) {
    && s.writer == Idle && r in Level(s.cells, 0) && r < |s.cells|
    && t == s.(cells := s.cells[r := s.cells[r].(val := v)], history := s.history + [Seen(s.cells[r].key, v)])
  }

  /** A new key: the writer has its predecessors and has drawn a height. */
  ghost predicate Find(s: State, t: State, k: Key, v: Event, h: nat, prev: seq<Ref>) {
    && s.writer == Idle && 1 <= h <= MAX_HEIGHT && |prev| == MAX_HEIGHT
    && (forall l :: 0 <= l < MAX_HEIGHT ==>
          if l < s.maxHeight then IsPred(s.cells, Level(s.cells, l), prev[l], k) else prev[l] == 0)
    && t == s.(writer := Found(k, v, h, prev), history := s.history + [Seen(k, v)])
  }

  /** The height is raised and the node allocated; nothing points to it yet. */
  ghost predicate Allocate(s: State, t: State) {
    && s.writer.Found?
    && var w := s.writer;
       t == s.(cells := s.cells + [Cell(w.k, w.v, NewCells(w.h))],
               maxHeight := if w.h > s.maxHeight then w.h else s.maxHeight,
               writer := Linking(|s.cells|, w.prev, 0, false))
  }

  /** The node's own pointer on its current level. */
  ghost predicate OwnStore(s: State, t: State) {
    && s.writer.Linking? && !s.writer.own
    && var w := s.writer;
    && HasLevel(s.cells, w.n, w.level) && w.level < |w.prev| && HasLevel(s.cells, w.prev[w.level], w.level)
    && t == s.(cells := StoreNext(s.cells, w.n, w.level, s.cells[w.prev[w.level]].next[w.level]),
               writer := w.(own := true))
  }

  /** The predecessor's pointer: the node appears on the level. */
  ghost predicate Publish(s: State, t: State) {
    && s.writer.Linking? && s.writer.own
    && var w := s.writer;
    && w.level < |w.prev| && HasLevel(s.cells, w.prev[w.level], w.level)
    && t == s.(cells := StoreNext(s.cells, w.prev[w.level], w.level, Some(w.n)),
               writer := w.(level := w.level + 1, own := false))
  }

  ghost predicate Finish(s: State, t: State) {
    && s.writer.Linking? && s.writer.n < |s.cells| && s.writer.level == |s.cells[s.writer.n].next|
    && t == s.(writer := Idle, count := s.count + 1)
  }

  /** A reader loads the height and starts from the head. */
  ghost predicate StartSeek(s: State, t: State, i: nat, target: Key) {
    && i < |s.readers| && 1 <= s.maxHeight
    && t == s.(readers := s.readers[i := Seeking(target, 0, s.maxHeight - 1)])
  }

  /** What one load of a searching reader leads to. */
  ghost function AfterLoad(cells: seq<Cell>, r: Reader): Reader
    requires r.Seeking? && HasLevel(cells, r.x, r.level)
  {
    var nx := cells[r.x].next[r.level];
    if nx.Some? && nx.value < |cells| && Less(cells[nx.value].key, r.target) then Seeking(r.target, nx.value, r.level)
    else if r.level > 0 then Seeking(r.target, r.x, r.level - 1)
    else Reading(r.target, nx, false, [], Keys(cells))
  }

  ghost predicate SeekLoad(s: State, t: State, i: nat) {
    && i < |s.readers| && s.readers[i].Seeking? && HasLevel(s.cells, s.readers[i].x, s.readers[i].level)
    && t == s.(readers := s.readers[i := AfterLoad(s.cells, s.readers[i])])
  }

  /** The value load at the current node. */
  ghost predicate Visit(s: State, t: State, i: nat) {
    && i < |s.readers| && s.readers[i].Reading? && !s.readers[i].visited
    && var r := s.readers[i];
    && r.node.Some? && r.node.value < |s.cells|
    && var x := s.cells[r.node.value];
       t == s.(readers := s.readers[i := r.(visited := true, seen := r.seen + [Seen(x.key, x.val)])])
  }

  /** The next-pointer load. */
  ghost predicate Advance(s: State, t: State, i: nat) {
    && i < |s.readers| && s.readers[i].Reading? && s.readers[i].visited
    && var r := s.readers[i];
    && r.node.Some? && HasLevel(s.cells, r.node.value, 0)
    && t == s.(readers := s.readers[i := r.(visited := false, node := s.cells[r.node.value].next[0])])
  }

  ghost predicate WriterStep(s: State, t: State) {
    || (exists r, v :: Replace(s, t, r, v))
    || (exists k, v, h, prev :: Find(s, t, k, v, h, prev))
    || Allocate(s, t) || OwnStore(s, t) || Publish(s, t) || Finish(s, t)
  }

  ghost predicate ReaderStep(s: State, t: State, i: nat) {
    (exists target :: StartSeek(s, t, i, target)) || SeekLoad(s, t, i) || Visit(s, t, i) || Advance(s, t, i)
  }

  ghost predicate Next(s: State, t: State) {
    WriterStep(s, t) || exists i :: ReaderStep(s, t, i)
  }

  ghost predicate Run(states: seq<State>) {
    && states != [] && Init(states[0])
    && forall i :: 0 <= i < |states| - 1 ==> Next(states[i], states[i + 1])
  }

  // ---- the invariant ----

  ghost predicate Within(c: seq<Ref>, d: seq<Ref>) {
    forall r :: r in c ==> r in d
  }

  /** At every step every level is a sorted, nil-terminated list inside the level below. */
  ghost predicate Tower(cells: seq<Cell>, maxHeight: nat, ls: seq<seq<Ref>>) {
    && |ls| == MAX_HEIGHT && 1 <= maxHeight <= MAX_HEIGHT
    && 0 < |cells| && |cells[0].next| == MAX_HEIGHT
    && (forall l :: 0 <= l < MAX_HEIGHT ==> IsLevel(cells, l, ls[l]) && Ascending(cells, ls[l]))
    && (forall l, m {:trigger Within(ls[l], ls[m])} :: 0 <= m < l < MAX_HEIGHT ==> Within(ls[l], ls[m]))
    && (forall l :: maxHeight <= l < MAX_HEIGHT ==> ls[l] == [])
  }

  ghost predicate WriterInv(cells: seq<Cell>, maxHeight: nat, count: nat, w: Writer, ls: seq<seq<Ref>>)
    requires |ls| == MAX_HEIGHT
  {
    match w
    case Idle => count == |ls[0]|
    case Found(k, v, h, prev) =>
      && count == |ls[0]| && 1 <= h <= MAX_HEIGHT && |prev| == MAX_HEIGHT
      && forall l :: 0 <= l < MAX_HEIGHT ==> IsPred(cells, ls[l], prev[l], k)
    case Linking(n, prev, level, own) =>
      && 0 < n < |cells| && |prev| == MAX_HEIGHT
      && level <= |cells[n].next| <= maxHeight && maxHeight <= MAX_HEIGHT && 1 <= |cells[n].next|
      && count + (if level > 0 then 1 else 0) == |ls[0]|
      && (forall l :: 0 <= l < level ==> n in ls[l])
      && (forall l :: level <= l < MAX_HEIGHT ==> n !in ls[l] && IsPred(cells, ls[l], prev[l], cells[n].key))
      && (own ==> level < |cells[n].next| && HasLevel(cells, prev[level], level)
                  && cells[n].next[level] == cells[prev[level]].next[level])
  }

  ghost predicate ReaderInv(cells: seq<Cell>, r: Reader, history: seq<Seen>, ls: seq<seq<Ref>>)
    requires |ls| == MAX_HEIGHT
  {
    match r
    case Resting => true
    case Seeking(target, x, level) =>
      level < MAX_HEIGHT && (x == 0 || (x in ls[level] && x < |cells| && Less(cells[x].key, target)))
    case Reading(target, node, visited, seen, present) =>
      && (node.Some? ==> node.value in ls[0] && node.value < |cells| && AtMost(target, cells[node.value].key))
      && (visited ==> node.Some? && seen != [] && seen[|seen| - 1].key == cells[node.value].key)
      && Honest(target, seen, history)
      && (node.Some? && !visited ==> forall i :: 0 <= i < |seen| ==> Less(seen[i].key, cells[node.value].key))
      && (forall k :: k in present ==> exists x :: x in ls[0] && x < |cells| && cells[x].key == k)
      && (forall k :: k in present && AtMost(target, k) && Passed(cells, node, visited, k) ==> WasSeen(seen, k))
  }

  /** What a reader has been shown: ascending keys from the target on, each pair really inserted. */
  ghost predicate Honest(target: Key, seen: seq<Seen>, history: seq<Seen>) {
    && (forall i :: 0 <= i < |seen| ==> AtMost(target, seen[i].key) && seen[i] in history)
    && (forall i, j :: 0 <= i < j < |seen| ==> Less(seen[i].key, seen[j].key))
  }

  ghost predicate WasSeen(seen: seq<Seen>, k: Key) {
    exists i :: 0 <= i < |seen| && seen[i].key == k
  }

  /** The reader has moved beyond k. */
  ghost predicate Passed(cells: seq<Cell>, node: Option<Ref>, visited: bool, k: Key) {
    node.Some? && node.value < |cells| ==>
      Less(k, cells[node.value].key) || (visited && k == cells[node.value].key)
  }

  ghost predicate Recorded(cells: seq<Cell>, w: Writer, history: seq<Seen>) {
    && (forall r :: 0 < r < |cells| ==> Seen(cells[r].key, cells[r].val) in history)
    && (w.Found? ==> Seen(w.k, w.v) in history)
  }

  ghost predicate InvWith(s: State, ls: seq<seq<Ref>>) {
    && |ls| == MAX_HEIGHT && 1 <= s.maxHeight <= MAX_HEIGHT
    && Tower(s.cells, s.maxHeight, ls)
    && WriterInv(s.cells, s.maxHeight, s.count, s.writer, ls)
    && Recorded(s.cells, s.writer, s.history)
    && forall i :: 0 <= i < |s.readers| ==> ReaderInv(s.cells, s.readers[i], s.history, ls)
  }

  // ---- what writer steps leave alone ----

  /** Cells may be added and pointers and values stored, but keys and heights never change. */
  ghost predicate SameKeys(a: seq<Cell>, b: seq<Cell>) {
    |a| <= |b| && forall r :: 0 <= r < |a| ==> b[r].key == a[r].key && |b[r].next| == |a[r].next|
  }

  lemma {:induction false} AscendingFrame(a: seq<Cell>, b: seq<Cell>, c: seq<Ref>)
    requires Ascending(a, c) && SameKeys(a, b)
    ensures Ascending(b, c)
  {
    hide Less;
  }

  lemma {:induction false} IsPredFrame(a: seq<Cell>, b: seq<Cell>, c: seq<Ref>, x: Ref, k: Key)
    requires IsPred(a, c, x, k) && SameKeys(a, b)
    ensures IsPred(b, c, x, k)
  {
    hide Less;
    var r: nat :| PredAt(a, c, x, k, r);
    assert PredAt(b, c, x, k, r);
  }

  lemma {:induction false} TowerFrame(a: seq<Cell>, b: seq<Cell>, m: nat, m': nat, ls: seq<seq<Ref>>)
    requires Tower(a, m, ls) && SameKeys(a, b) && m <= m' <= MAX_HEIGHT
    requires forall l :: 0 <= l < MAX_HEIGHT ==> IsLevel(b, l, ls[l])
    ensures Tower(b, m', ls)
  {
    hide IsLevel;
    forall l | 0 <= l < MAX_HEIGHT ensures IsLevel(b, l, ls[l]) && Ascending(b, ls[l]) {
      assert IsLevel(a, l, ls[l]);
      AscendingFrame(a, b, ls[l]);
    }
    hide Ascending;
  }

  /** No writer step disturbs a reader. */
  lemma {:induction false} ReaderFrame(a: seq<Cell>, b: seq<Cell>, r: Reader, h: seq<Seen>, h': seq<Seen>,
      ls: seq<seq<Ref>>, ls': seq<seq<Ref>>)
    requires |ls| == |ls'| == MAX_HEIGHT && ReaderInv(a, r, h, ls) && SameKeys(a, b) && h <= h'
    requires forall l :: 0 <= l < MAX_HEIGHT ==> Within(ls[l], ls'[l])
    ensures ReaderInv(b, r, h', ls')
  {
    hide Less;
    hide AtMost;
    assert Within(ls[0], ls'[0]);
    if r.Seeking? {
      assert Within(ls[r.level], ls'[r.level]);
    }
    if r.Reading? {
      forall k | k in r.present ensures exists x :: x in ls'[0] && x < |b| && b[x].key == k {
        var x :| x in ls[0] && x < |a| && a[x].key == k;
        assert x in ls'[0] && b[x].key == k;
      }
    }
  }

  lemma {:induction false} ReadersFrame(s: State, t: State, ls: seq<seq<Ref>>, ls': seq<seq<Ref>>)
    requires |ls| == |ls'| == MAX_HEIGHT && SameKeys(s.cells, t.cells) && s.history <= t.history
             && t.readers == s.readers
    requires forall l :: 0 <= l < MAX_HEIGHT ==> Within(ls[l], ls'[l])
    requires forall i :: 0 <= i < |s.readers| ==> ReaderInv(s.cells, s.readers[i], s.history, ls)
    ensures forall i :: 0 <= i < |t.readers| ==> ReaderInv(t.cells, t.readers[i], t.history, ls')
  {
    forall i | 0 <= i < |t.readers| ensures ReaderInv(t.cells, t.readers[i], t.history, ls') {
      ReaderFrame(s.cells, t.cells, s.readers[i], s.history, t.history, ls, ls');
    }
  }

  // ---- the writer's steps ----

  /** The parts of the invariant, put together after a writer step. */
  lemma {:induction false} WriterKeeps(s: State, t: State, ls: seq<seq<Ref>>, ls': seq<seq<Ref>>)
    requires InvWith(s, ls) && t.readers == s.readers && s.history <= t.history && SameKeys(s.cells, t.cells)
    requires Tower(t.cells, t.maxHeight, ls') && WriterInv(t.cells, t.maxHeight, t.count, t.writer, ls')
    requires Recorded(t.cells, t.writer, t.history)
    requires forall l :: 0 <= l < MAX_HEIGHT ==> Within(ls[l], ls'[l])
    ensures InvWith(t, ls')
  {
    hide ReaderInv;
    hide WriterInv;
    hide Recorded;
    ReadersFrame(s, t, ls, ls');
  }

  lemma {:induction false} SameNextTower(a: seq<Cell>, b: seq<Cell>, m: nat, m': nat, ls: seq<seq<Ref>>)
    requires Tower(a, m, ls) && SameKeys(a, b) && m <= m' <= MAX_HEIGHT
    requires forall r :: 0 <= r < |a| ==> b[r].next == a[r].next
    ensures Tower(b, m', ls)
  {
    hide Ascending;
    forall l | 0 <= l < MAX_HEIGHT ensures IsLevel(b, l, ls[l]) {
      assert IsLevel(a, l, ls[l]);
      forall i | 0 <= i <= |ls[l]| ensures LevelAt(b, l, ls[l], i) {
        assert LevelAt(a, l, ls[l], i);
      }
    }
    hide IsLevel;
    TowerFrame(a, b, m, m', ls);
  }

  lemma {:induction false} ReplaceKeeps(s: State, t: State, r: Ref, v: Event, ls: seq<seq<Ref>>)
    requires InvWith(s, ls) && Replace(s, t, r, v)
    ensures InvWith(t, ls)
  {
    hide ReaderInv;
    hide Tower;
    hide Level;
    assert r != 0 ==> forall x :: 0 < x < |t.cells| && x != r ==> t.cells[x] == s.cells[x];
    SameNextTower(s.cells, t.cells, s.maxHeight, t.maxHeight, ls);
    WriterKeeps(s, t, ls, ls);
  }

  lemma {:induction false} FindKeeps(s: State, t: State, k: Key, v: Event, h: nat, prev: seq<Ref>, ls: seq<seq<Ref>>)
    requires InvWith(s, ls) && Find(s, t, k, v, h, prev)
    ensures InvWith(t, ls)
  {
    hide ReaderInv;
    forall l | 0 <= l < MAX_HEIGHT ensures IsPred(s.cells, ls[l], prev[l], k) {
      assert IsLevel(s.cells, l, ls[l]);
      LevelIs(s.cells, l, ls[l]);
      if l >= s.maxHeight {
        assert PredAt(s.cells, ls[l], 0, k, 0);
      }
    }
    hide IsPred;
    hide Level;
    WriterKeeps(s, t, ls, ls);
  }

  lemma {:induction false} AllocateKeeps(s: State, t: State, ls: seq<seq<Ref>>)
    requires InvWith(s, ls) && Allocate(s, t)
    ensures InvWith(t, ls)
  {
    hide ReaderInv;
    var n := |s.cells|;
    assert t.cells[n].key == s.writer.k && SameKeys(s.cells, t.cells);
    assert 0 < n && forall l :: 0 <= l < MAX_HEIGHT ==> Ascending(s.cells, ls[l]);
    SameNextTower(s.cells, t.cells, s.maxHeight, t.maxHeight, ls);
    hide Tower;
    forall l | 0 <= l < MAX_HEIGHT ensures n !in ls[l] && IsPred(t.cells, ls[l], s.writer.prev[l], s.writer.k) {
      assert Ascending(s.cells, ls[l]);
      IsPredFrame(s.cells, t.cells, ls[l], s.writer.prev[l], s.writer.k);
    }
    hide IsPred;
    hide Ascending;
    WriterKeeps(s, t, ls, ls);
  }

  lemma {:induction false} OwnStoreTower(s: State, t: State, ls: seq<seq<Ref>>)
    requires InvWith(s, ls) && OwnStore(s, t)
    ensures Tower(t.cells, t.maxHeight, ls)
  {
    hide ReaderInv;
    hide Ascending;
    hide IsPred;
    var w := s.writer;
    assert w.n !in ls[w.level];
    forall l | 0 <= l < MAX_HEIGHT ensures IsLevel(t.cells, l, ls[l]) {
      assert IsLevel(s.cells, l, ls[l]);
      hide Tower;
      forall i | 0 <= i <= |ls[l]| ensures LevelAt(t.cells, l, ls[l], i) {
        assert LevelAt(s.cells, l, ls[l], i);
        assert l == w.level ==> At(ls[l], i) != w.n;
      }
    }
    hide IsLevel;
    TowerFrame(s.cells, t.cells, s.maxHeight, t.maxHeight, ls);
  }

  lemma {:induction false} OwnStoreKeeps(s: State, t: State, ls: seq<seq<Ref>>)
    requires InvWith(s, ls) && OwnStore(s, t)
    ensures InvWith(t, ls)
  {
    hide ReaderInv;
    hide Tower;
    OwnStoreTower(s, t, ls);
    var w := s.writer;
    assert |ls| == MAX_HEIGHT;
    forall l | w.level <= l < MAX_HEIGHT ensures IsPred(t.cells, ls[l], w.prev[l], t.cells[w.n].key) {
      IsPredFrame(s.cells, t.cells, ls[l], w.prev[l], s.cells[w.n].key);
    }
    OwnPointerKept(s, t, ls);
    hide IsPred;
    WriterKeeps(s, t, ls, ls);
  }

  /** The node is not its own predecessor, so the store leaves the predecessor's pointer alone. */
  lemma {:induction false} OwnPointerKept(s: State, t: State, ls: seq<seq<Ref>>)
    requires InvWith(s, ls) && OwnStore(s, t)
    ensures var w := s.writer;
            && HasLevel(t.cells, w.n, w.level) && HasLevel(t.cells, w.prev[w.level], w.level)
            && t.cells[w.n].next[w.level] == t.cells[w.prev[w.level]].next[w.level]
  {
    hide ReaderInv;
    hide Tower;
    var w := s.writer;
    var r: nat :| PredAt(s.cells, ls[w.level], w.prev[w.level], s.cells[w.n].key, r);
    assert w.n !in ls[w.level];
  }

  lemma {:induction false} FinishKeeps(s: State, t: State, ls: seq<seq<Ref>>)
    requires InvWith(s, ls) && Finish(s, t)
    ensures InvWith(t, ls)
  {
    hide ReaderInv;
    hide Tower;
  }

  /** c with n put behind position r. */
  function Inserted(c: seq<Ref>, n: Ref, r: nat): seq<Ref>
    requires r <= |c|
  {
    c[..r] + [n] + c[r..]
  }

  lemma {:induction false} InsertedAt(c: seq<Ref>, n: Ref, r: nat, i: nat)
    requires r <= |c| && i <= |c| + 1
    ensures var d := Inserted(c, n, r);
            && |d| == |c| + 1
            && At(d, i) == (if i <= r then At(c, i) else if i == r + 1 then n else At(c, i - 1))
            && (i <= |c| ==> d[i] == if i < r then c[i] else if i == r then n else c[i - 1])
  {
  }

  lemma {:induction false} InsertedHas(c: seq<Ref>, n: Ref, r: nat)
    requires r <= |c|
    ensures |Inserted(c, n, r)| == |c| + 1
    ensures forall x :: x in Inserted(c, n, r) <==> x == n || x in c
  {
    assert c == c[..r] + c[r..];
    assert Inserted(c, n, r)[r] == n;
  }

  lemma {:induction false} Apart(a: seq<Cell>, l: nat, c: seq<Ref>, i: nat, j: nat)
    requires IsLevel(a, l, c) && Ascending(a, c) && i < j <= |c|
    ensures At(c, i) != At(c, j)
  {
    assert LevelAt(a, l, c, j - 1);
    if i > 0 {
      assert Less(a[c[i - 1]].key, a[c[j - 1]].key);
    }
  }

  /** One position of the level after the publishing store. */
  lemma {:induction false} PublishedAt(a: seq<Cell>, l: nat, c: seq<Ref>, n: Ref, p: Ref, r: nat, i: nat)
    requires IsLevel(a, l, c) && Ascending(a, c) && r <= |c| && p == At(c, r) && i <= |c| + 1
    requires 0 < n < |a| && n !in c && HasLevel(a, n, l) && HasLevel(a, p, l) && a[n].next[l] == a[p].next[l]
    ensures var b, d := StoreNext(a, p, l, Some(n)), Inserted(c, n, r);
            |d| == |c| + 1 && LevelAt(b, l, d, i)
  {
    var j := if i <= r then i else i - 1;
    InsertedAt(c, n, r, i);
    assert LevelAt(a, l, c, j) && LevelAt(a, l, c, r);
    if j < r {
      Apart(a, l, c, j, r);
      assert c[j] != 0;
    } else if r < j {
      Apart(a, l, c, r, j);
    }
    assert At(c, j) != n by {
      assert j > 0 ==> At(c, j) == c[j - 1];
    }
    hide Ascending;
    hide IsLevel;
    hide Inserted;
    hide At;
  }

  lemma {:induction false} PublishedLevel(a: seq<Cell>, l: nat, c: seq<Ref>, n: Ref, p: Ref, r: nat)
    requires IsLevel(a, l, c) && Ascending(a, c) && r <= |c| && p == At(c, r)
    requires 0 < n < |a| && n !in c && HasLevel(a, n, l) && HasLevel(a, p, l) && a[n].next[l] == a[p].next[l]
    ensures IsLevel(StoreNext(a, p, l, Some(n)), l, Inserted(c, n, r))
  {
    InsertedHas(c, n, r);
    forall i | 0 <= i <= |c| + 1 {
      PublishedAt(a, l, c, n, p, r, i);
    }
    hide Inserted;
    hide Ascending;
    hide LevelAt;
    hide StoreNext;
  }

  lemma {:induction false} PublishedAscends(a: seq<Cell>, b: seq<Cell>, c: seq<Ref>, n: Ref, r: nat)
    requires Ascending(a, c) && n < |a| && r <= |c| && PredAt(a, c, At(c, r), a[n].key, r) && SameKeys(a, b)
    ensures Ascending(b, Inserted(c, n, r))
  {
    hide Less;
    var d := Inserted(c, n, r);
    InsertedHas(c, n, r);
    forall i | 0 <= i < |d| ensures d[i] < |a| && b[d[i]].key == a[d[i]].key {
      InsertedAt(c, n, r, i);
    }
    forall i, j | 0 <= i < j < |d| ensures Less(b[d[i]].key, b[d[j]].key) {
      InsertedAt(c, n, r, i);
      InsertedAt(c, n, r, j);
    }
  }

  lemma {:induction false} OtherLevelKept(a: seq<Cell>, p: Ref, l: nat, to: Option<Ref>, m: nat, c: seq<Ref>)
    requires IsLevel(a, m, c) && HasLevel(a, p, l) && m != l
    ensures IsLevel(StoreNext(a, p, l, to), m, c)
  {
    forall i | 0 <= i <= |c| ensures LevelAt(StoreNext(a, p, l, to), m, c, i) {
      assert LevelAt(a, m, c, i);
    }
  }

  lemma {:induction false} PublishedTower(a: seq<Cell>, m: nat, ls: seq<seq<Ref>>, l: nat, n: Ref, p: Ref, r: nat)
    requires Tower(a, m, ls) && l < m && 0 < n < |a| && n !in ls[l]
    requires HasLevel(a, n, l) && HasLevel(a, p, l) && a[n].next[l] == a[p].next[l]
    requires PredAt(a, ls[l], p, a[n].key, r) && forall j :: 0 <= j < l ==> n in ls[j]
    ensures Tower(StoreNext(a, p, l, Some(n)), m, ls[l := Inserted(ls[l], n, r)])
  {
    var c, b := ls[l], StoreNext(a, p, l, Some(n));
    var ls' := ls[l := Inserted(c, n, r)];
    assert IsLevel(a, l, c) && Ascending(a, c);
    PublishedLevel(a, l, c, n, p, r);
    PublishedAscends(a, b, c, n, r);
    InsertedHas(c, n, r);
    hide PredAt;
    hide Inserted;
    forall j | 0 <= j < MAX_HEIGHT ensures IsLevel(b, j, ls'[j]) && Ascending(b, ls'[j]) {
      if j != l {
        assert IsLevel(a, j, ls[j]) && Ascending(a, ls[j]);
        OtherLevelKept(a, p, l, Some(n), j, ls[j]);
        AscendingFrame(a, b, ls[j]);
      }
    }
    hide IsLevel;
    hide Ascending;
    forall j, k {:trigger Within(ls'[j], ls'[k])} | 0 <= k < j < MAX_HEIGHT ensures Within(ls'[j], ls'[k]) {
      assert Within(ls[j], ls[k]);
    }
  }

  lemma {:induction false} PublishWriter(s: State, t: State, ls: seq<seq<Ref>>, r: nat)
    requires InvWith(s, ls) && Publish(s, t)
    requires PredAt(s.cells, ls[s.writer.level], s.writer.prev[s.writer.level], s.cells[s.writer.n].key, r)
    ensures WriterInv(t.cells, t.maxHeight, t.count, t.writer,
            ls[s.writer.level := Inserted(ls[s.writer.level], s.writer.n, r)])
  {
    hide ReaderInv;
    hide Tower;
    var w := s.writer;
    var c := ls[w.level];
    InsertedHas(c, w.n, r);
    forall l | w.level + 1 <= l < MAX_HEIGHT ensures IsPred(t.cells, ls[l], w.prev[l], t.cells[w.n].key) {
      IsPredFrame(s.cells, t.cells, ls[l], w.prev[l], s.cells[w.n].key);
    }
    hide IsPred;
    hide PredAt;
    hide Inserted;
  }

  lemma {:induction false} PublishKeeps(s: State, t: State, ls: seq<seq<Ref>>) returns (ls': seq<seq<Ref>>)
    requires InvWith(s, ls) && Publish(s, t)
    ensures InvWith(t, ls')
    ensures forall r :: r in ls'[0] <==> r in ls[0] || (s.writer.level == 0 && r == s.writer.n)
  {
    var w := s.writer;
    var c := ls[w.level];
    assert IsPred(s.cells, c, w.prev[w.level], s.cells[w.n].key);
    var r: nat :| PredAt(s.cells, c, w.prev[w.level], s.cells[w.n].key, r);
    ls' := ls[w.level := Inserted(c, w.n, r)];
    PublishedTower(s.cells, s.maxHeight, ls, w.level, w.n, w.prev[w.level], r);
    PublishWriter(s, t, ls, r);
    InsertedHas(c, w.n, r);
    hide ReaderInv;
    hide Tower;
    hide WriterInv;
    hide Inserted;
    WriterKeeps(s, t, ls, ls');
  }

  // ---- the readers' steps ----

  /** x is the first node of the level not before k; None when there is none. */
  ghost predicate IsFirstGe(cells: seq<Cell>, c: seq<Ref>, x: Option<Ref>, k: Key) {
    && (forall i :: 0 <= i < |c| ==> c[i] < |cells|)
    && (x.Some? ==> x.value in c && !Less(cells[x.value].key, k))
    && (forall r :: r in c && !Less(cells[r].key, k) ==> x.Some? && AtMost(cells[x.value].key, cells[r].key))
  }

  /** From a node before the target on level 0, the pointer leads to the least key not before it. */
  lemma {:induction false} FirstGe(cells: seq<Cell>, c: seq<Ref>, x: Ref, k: Key)
    requires IsLevel(cells, 0, c) && Ascending(cells, c)
    requires x == 0 || (x in c && Less(cells[x].key, k))
    requires HasLevel(cells, x, 0)
             && (var nx := cells[x].next[0]; nx.Some? && nx.value < |cells| ==> !Less(cells[nx.value].key, k))
    ensures IsFirstGe(cells, c, cells[x].next[0], k)
  {
    var i: nat := 0;
    if x != 0 {
      var j :| 0 <= j < |c| && c[j] == x;
      i := j + 1;
    }
    assert LevelAt(cells, 0, c, i) && At(c, i) == x;
    forall j | 0 <= j < i ensures Less(cells[c[j]].key, k) {
      if j < i - 1 {
        assert Less(cells[c[j]].key, cells[c[i - 1]].key);
      }
    }
    forall r | r in c && !Less(cells[r].key, k)
      ensures cells[x].next[0].Some? && AtMost(cells[cells[x].next[0].value].key, cells[r].key)
    {
      var j :| 0 <= j < |c| && c[j] == r;
      if j > i {
        assert Less(cells[c[i]].key, cells[c[j]].key);
      }
    }
  }

  lemma {:induction false} KeysAre(cells: seq<Cell>, c: seq<Ref>, k: Key)
    requires IsLevel(cells, 0, c) && Ascending(cells, c)
    ensures k in Keys(cells) <==> exists x :: x in c && x < |cells| && cells[x].key == k
  {
    LevelIs(cells, 0, c);
  }

  lemma {:induction false} SeekLoadKeeps(cells: seq<Cell>, r: Reader, h: seq<Seen>, m: nat, ls: seq<seq<Ref>>)
    requires Tower(cells, m, ls) && ReaderInv(cells, r, h, ls) && r.Seeking? && HasLevel(cells, r.x, r.level)
    ensures ReaderInv(cells, AfterLoad(cells, r), h, ls)
    ensures var r' := AfterLoad(cells, r); r'.Reading? ==> IsFirstGe(cells, ls[0], r'.node, r.target)
  {
    var nx := cells[r.x].next[r.level];
    var c := ls[r.level];
    assert IsLevel(cells, r.level, c) && Ascending(cells, c);
    var i: nat := 0;
    if r.x != 0 {
      var j :| 0 <= j < |c| && c[j] == r.x;
      i := j + 1;
    }
    assert LevelAt(cells, r.level, c, i) && At(c, i) == r.x;
    if nx.Some? && Less(cells[nx.value].key, r.target) {
    } else if r.level > 0 {
      assert Within(ls[r.level], ls[r.level - 1]);
    } else {
      FirstGe(cells, c, r.x, r.target);
      SeekEnds(cells, r, h, ls);
    }
  }

  lemma {:induction false} SeekEnds(cells: seq<Cell>, r: Reader, h: seq<Seen>, ls: seq<seq<Ref>>)
    requires |ls| == MAX_HEIGHT && r.Seeking? && r.level == 0 && HasLevel(cells, r.x, 0)
    requires IsLevel(cells, 0, ls[0]) && Ascending(cells, ls[0])
    requires IsFirstGe(cells, ls[0], cells[r.x].next[0], r.target)
    ensures ReaderInv(cells, Reading(r.target, cells[r.x].next[0], false, [], Keys(cells)), h, ls)
  {
    var node := cells[r.x].next[0];
    forall k | k in Keys(cells) ensures exists x :: x in ls[0] && x < |cells| && cells[x].key == k {
      KeysAre(cells, ls[0], k);
    }
    forall k | k in Keys(cells) && AtMost(r.target, k) ensures !Passed(cells, node, false, k) {
      KeysAre(cells, ls[0], k);
      var x :| x in ls[0] && x < |cells| && cells[x].key == k;
    }
  }

  lemma {:induction false} VisitKeeps(cells: seq<Cell>, r: Reader, h: seq<Seen>, m: nat, ls: seq<seq<Ref>>)
    requires Tower(cells, m, ls) && ReaderInv(cells, r, h, ls) && r.Reading? && !r.visited && r.node.Some?
    requires forall x :: 0 < x < |cells| ==> Seen(cells[x].key, cells[x].val) in h
    ensures var x := cells[r.node.value];
            ReaderInv(cells, r.(visited := true, seen := r.seen + [Seen(x.key, x.val)]), h, ls)
  {
    var n := r.node.value;
    var x := cells[n];
    var seen := r.seen + [Seen(x.key, x.val)];
    var i :| 0 <= i < |ls[0]| && ls[0][i] == n;
    assert IsLevel(cells, 0, ls[0]);
    assert LevelAt(cells, 0, ls[0], i);
    assert Honest(r.target, seen, h);
    hide Tower;
    hide Honest;
    hide IsLevel;
    forall k | k in r.present && AtMost(r.target, k) && Passed(cells, r.node, true, k) ensures WasSeen(seen, k) {
      if k == x.key {
        assert seen[|r.seen|].key == k;
      } else {
        assert WasSeen(r.seen, k);
        var j :| 0 <= j < |r.seen| && r.seen[j].key == k;
        assert seen[j].key == k;
      }
    }
  }

  lemma {:induction false} AdvanceKeeps(cells: seq<Cell>, r: Reader, h: seq<Seen>, m: nat, ls: seq<seq<Ref>>)
    requires Tower(cells, m, ls) && ReaderInv(cells, r, h, ls) && r.Reading? && r.visited
             && HasLevel(cells, r.node.value, 0)
    ensures ReaderInv(cells, r.(visited := false, node := cells[r.node.value].next[0]), h, ls)
  {
    var n, c := r.node.value, ls[0];
    var nx := cells[n].next[0];
    assert IsLevel(cells, 0, c) && Ascending(cells, c);
    hide Tower;
    var i :| 0 <= i < |c| && c[i] == n;
    assert LevelAt(cells, 0, c, i + 1) && At(c, i + 1) == n;
    if nx.Some? {
      assert Less(cells[c[i]].key, cells[c[i + 1]].key);
    }
    forall j | i + 1 <= j < |c| ensures !Passed(cells, nx, false, cells[c[j]].key) {
      if j > i + 1 {
        assert Less(cells[c[i + 1]].key, cells[c[j]].key);
      }
    }
    forall k | k in r.present && AtMost(r.target, k) && Passed(cells, nx, false, k) ensures WasSeen(r.seen, k) {
      var x :| x in c && x < |cells| && cells[x].key == k;
      var j :| 0 <= j < |c| && c[j] == x;
      assert j <= i;
      if j < i {
        assert Less(cells[c[j]].key, cells[c[i]].key);
      }
      assert Passed(cells, r.node, true, k);
    }
  }

  lemma {:induction false} ReaderKeeps(s: State, t: State, i: nat, ls: seq<seq<Ref>>)
    requires InvWith(s, ls) && ReaderStep(s, t, i)
    ensures InvWith(t, ls)
  {
    hide WriterInv;
    if exists target :: StartSeek(s, t, i, target) {
      hide Tower;
    } else if SeekLoad(s, t, i) {
      SeekLoadKeeps(s.cells, s.readers[i], s.history, s.maxHeight, ls);
    } else if Visit(s, t, i) {
      VisitKeeps(s.cells, s.readers[i], s.history, s.maxHeight, ls);
    } else {
      AdvanceKeeps(s.cells, s.readers[i], s.history, s.maxHeight, ls);
    }
    hide ReaderInv;
  }

  // ---- every run ----

  lemma {:induction false} InitInv(s: State)
    requires Init(s)
    ensures InvWith(s, seq(MAX_HEIGHT, _ => []))
  {
    var ls: seq<seq<Ref>> := seq(MAX_HEIGHT, _ => []);
    forall l | 0 <= l < MAX_HEIGHT ensures IsLevel(s.cells, l, ls[l]) {
      assert LevelAt(s.cells, l, [], 0);
    }
  }

  lemma {:induction false} StepKeeps(s: State, t: State, ls: seq<seq<Ref>>) returns (ls': seq<seq<Ref>>)
    requires InvWith(s, ls) && Next(s, t)
    ensures InvWith(t, ls')
  {
    ls' := ls;
    hide InvWith;
    if WriterStep(s, t) {
      if Allocate(s, t) {
        AllocateKeeps(s, t, ls);
      } else if OwnStore(s, t) {
        OwnStoreKeeps(s, t, ls);
      } else if Publish(s, t) {
        ls' := PublishKeeps(s, t, ls);
      } else if Finish(s, t) {
        FinishKeeps(s, t, ls);
      } else if exists r, v :: Replace(s, t, r, v) {
        var r, v :| Replace(s, t, r, v);
        ReplaceKeeps(s, t, r, v, ls);
      } else {
        var k, v, h, prev :| Find(s, t, k, v, h, prev);
        FindKeeps(s, t, k, v, h, prev, ls);
      }
    } else {
      var i :| ReaderStep(s, t, i);
      ReaderKeeps(s, t, i, ls);
    }
  }

  lemma {:induction false} RunInv(states: seq<State>, i: nat) returns (ls: seq<seq<Ref>>)
    requires Run(states) && i < |states|
    ensures InvWith(states[i], ls)
  {
    if i == 0 {
      InitInv(states[0]);
      ls := seq(MAX_HEIGHT, _ => []);
    } else {
      ls := RunInv(states, i - 1);
      assert Next(states[i - 1], states[i - 1 + 1]);
      ls := StepKeeps(states[i - 1], states[i], ls);
    }
  }

  /** At every step of every run the levels are sorted, finite lists, each inside the one below. */
  lemma {:induction false} LevelsStayOrdered(states: seq<State>, i: nat, l: nat)
    requires Run(states) && i < |states| && l < MAX_HEIGHT
    ensures var cells := states[i].cells;
            && IsLevel(cells, l, Level(cells, l)) && Ascending(cells, Level(cells, l))
            && (l > 0 ==> Within(Level(cells, l), Level(cells, l - 1)))
  {
    var ls := RunInv(states, i);
    var cells := states[i].cells;
    assert IsLevel(cells, l, ls[l]) && Ascending(cells, ls[l]);
    LevelIs(cells, l, ls[l]);
    if l > 0 {
      assert IsLevel(cells, l - 1, ls[l - 1]) && Within(ls[l], ls[l - 1]);
      LevelIs(cells, l - 1, ls[l - 1]);
    }
  }

  /** A search that finishes returns exactly the least key not before its target present at its last load. */
  lemma {:induction false} SeekIsExact(states: seq<State>, i: nat, reader: nat)
    requires Run(states) && i + 1 < |states| && SeekLoad(states[i], states[i + 1], reader)
    requires states[i + 1].readers[reader].Reading?
    ensures var cells, r := states[i].cells, states[i + 1].readers[reader];
            IsFirstGe(cells, Level(cells, 0), r.node, r.target)
  {
    var ls := RunInv(states, i);
    var s := states[i];
    SeekLoadKeeps(s.cells, s.readers[reader], s.history, s.maxHeight, ls);
    assert IsLevel(s.cells, 0, ls[0]);
    LevelIs(s.cells, 0, ls[0]);
  }

  /**
   What a scanning reader has been shown is ascending and was really inserted, and
   it has passed over no key in range that was present when its search finished.
   */
  lemma {:induction false} ScanIsFaithful(states: seq<State>, i: nat, reader: nat, k: Key)
    requires Run(states) && i < |states| && reader < |states[i].readers| && states[i].readers[reader].Reading?
    ensures var s := states[i];
            var r := s.readers[reader];
            && Honest(r.target, r.seen, s.history)
            && (k in r.present && AtMost(r.target, k) && Passed(s.cells, r.node, r.visited, k) ==> WasSeen(r.seen, k))
  {
    var ls := RunInv(states, i);
    assert ReaderInv(states[i].cells, states[i].readers[reader], states[i].history, ls);
  }

  /** Between insertions the counter is the number of keys. */
  lemma {:induction false} CountIsExact(states: seq<State>, i: nat)
    requires Run(states) && i < |states|
    ensures states[i].writer == Idle ==> states[i].count == |Level(states[i].cells, 0)|
  {
    var ls := RunInv(states, i);
    assert IsLevel(states[i].cells, 0, ls[0]);
    LevelIs(states[i].cells, 0, ls[0]);
  }

  // ---- nobody gets stuck ----

  // ---- the list as a map ----

  /** The value last handed to an insertion of this key. */
  function Latest(history: seq<Seen>, k: Key): Option<Event> {
    if history == [] then None
    else
      var n := |history| - 1;
      if history[n].key == k then Some(history[n].val) else Latest(history[..n], k)
  }

  lemma {:induction false} LatestSnoc(history: seq<Seen>, x: Seen, k: Key)
    ensures Latest(history + [x], k) == if x.key == k then Some(x.val) else Latest(history, k)
  {
    assert (history + [x])[..|history|] == history;
  }

  lemma {:induction false} LatestOf(history: seq<Seen>, k: Key)
    ensures Latest(history, k).Some? <==> exists i :: 0 <= i < |history| && history[i].key == k
  {
    if history != [] {
      LatestOf(history[..|history| - 1], k);
    }
  }

  /** The writer holds this key, but has not yet made it visible on level 0. */
  ghost predicate Pending(cells: seq<Cell>, w: Writer, k: Key) {
    match w
    case Idle => false
    case Found(key, _, _, _) => key == k
    case Linking(n, _, level, _) => level == 0 && n < |cells| && cells[n].key == k
  }

  /** Every node of the chain holds the value last inserted under its key, the writer brings its latest one, and no key
      ever inserted is missing except the one the writer is about to show. */
  ghost predicate UpToDate(cells: seq<Cell>, w: Writer, history: seq<Seen>, c: seq<Ref>) {
    && (forall r :: r in c ==> r < |cells| && Latest(history, cells[r].key) == Some(cells[r].val))
    && (w.Found? ==> Latest(history, w.k) == Some(w.v) && forall r :: r in c && r < |cells| ==> cells[r].key != w.k)
    && (w.Linking? ==> w.n < |cells| && Latest(history, cells[w.n].key) == Some(cells[w.n].val))
    && (forall k :: Latest(history, k).Some? ==> InChain(cells, c, k) || Pending(cells, w, k))
  }

  ghost predicate InChain(cells: seq<Cell>, c: seq<Ref>, k: Key) {
    exists r :: r in c && r < |cells| && cells[r].key == k
  }

  lemma {:induction false} ReplaceDates(s: State, t: State, r: Ref, v: Event, c: seq<Ref>)
    requires UpToDate(s.cells, s.writer, s.history, c) && Ascending(s.cells, c) && Replace(s, t, r, v) && r in c
    ensures UpToDate(t.cells, t.writer, t.history, c)
  {
    hide Level;
    var x := Seen(s.cells[r].key, v);
    forall k ensures Latest(t.history, k) == if x.key == k then Some(v) else Latest(s.history, k) {
      LatestSnoc(s.history, x, k);
    }
    forall q | q in c ensures q < |t.cells| && Latest(t.history, t.cells[q].key) == Some(t.cells[q].val) {
      if q != r {
        OneNodePerKey(s.cells, c, q, r);
      }
    }
    hide Latest;
    forall k | Latest(t.history, k).Some? ensures InChain(t.cells, c, k) {
      assert r in c && t.cells[r].key == x.key;
      if k != x.key {
        assert InChain(s.cells, c, k);
        var q :| q in c && q < |s.cells| && s.cells[q].key == k;
        assert t.cells[q].key == k;
      }
    }
  }

  lemma {:induction false} OneNodePerKey(cells: seq<Cell>, c: seq<Ref>, q: Ref, r: Ref)
    requires Ascending(cells, c) && q in c && r in c && q != r
    ensures q < |cells| && r < |cells| && cells[q].key != cells[r].key
  {
    var i :| 0 <= i < |c| && c[i] == q;
    var j :| 0 <= j < |c| && c[j] == r;
    LessTotal(cells[q].key, cells[r].key);
    assert i < j || j < i;
  }

  lemma {:induction false} FindDates(s: State, t: State, k: Key, v: Event, h: nat, prev: seq<Ref>, c: seq<Ref>)
    requires UpToDate(s.cells, s.writer, s.history, c) && Find(s, t, k, v, h, prev)
    requires forall r :: r in c && r < |s.cells| ==> s.cells[r].key != k
    ensures UpToDate(t.cells, t.writer, t.history, c)
  {
    hide Level;
    hide IsPred;
    forall q ensures Latest(t.history, q) == if k == q then Some(v) else Latest(s.history, q) {
      LatestSnoc(s.history, Seen(k, v), q);
    }
    hide Latest;
    hide InChain;
  }

  /** No node of the chain has a key that lies strictly between neighbours. */
  lemma {:induction false} PredMeansAbsent(cells: seq<Cell>, c: seq<Ref>, x: Ref, k: Key)
    requires IsPred(cells, c, x, k)
    ensures forall r :: r in c && r < |cells| ==> cells[r].key != k
  {
    var p: nat :| PredAt(cells, c, x, k, p);
    forall r | r in c && r < |cells| ensures cells[r].key != k {
      var i :| 0 <= i < |c| && c[i] == r;
      LessTotal(cells[r].key, k);
      assert i < p || p <= i;
    }
  }

  /** Allocating, storing pointers and finishing change neither keys nor values of the nodes there are. */
  lemma {:induction false} OthersDate(s: State, t: State, c: seq<Ref>)
    requires UpToDate(s.cells, s.writer, s.history, c) && t.history == s.history && |s.cells| <= |t.cells|
    requires forall r :: 0 <= r < |s.cells| ==> t.cells[r].key == s.cells[r].key && t.cells[r].val == s.cells[r].val
    requires t.writer.Found? ==> t.writer == s.writer
    requires t.writer.Linking?
             ==> t.writer.n < |t.cells| && Latest(t.history, t.cells[t.writer.n].key) == Some(t.cells[t.writer.n].val)
    requires forall k :: Pending(s.cells, s.writer, k) ==> InChain(s.cells, c, k) || Pending(t.cells, t.writer, k)
    ensures UpToDate(t.cells, t.writer, t.history, c)
  {
    hide Latest;
    forall k | Latest(t.history, k).Some? ensures InChain(t.cells, c, k) || Pending(t.cells, t.writer, k) {
      if InChain(s.cells, c, k) {
        var r :| r in c && r < |s.cells| && s.cells[r].key == k;
        assert t.cells[r].key == k;
      }
    }
  }

  lemma {:induction false} PublishDates(s: State, t: State, c: seq<Ref>, d: seq<Ref>)
    requires UpToDate(s.cells, s.writer, s.history, c) && Publish(s, t)
    requires forall r :: r in d <==> r in c || (s.writer.level == 0 && r == s.writer.n)
    requires s.writer.level > 0 ==> s.writer.n in c
    ensures UpToDate(t.cells, t.writer, t.history, d)
  {
    hide Latest;
    var n := s.writer.n;
    assert n in d;
    forall k | Latest(t.history, k).Some? ensures InChain(t.cells, d, k) {
      if InChain(s.cells, c, k) {
        var r :| r in c && r < |s.cells| && s.cells[r].key == k;
        assert r in d && t.cells[r].key == k;
      } else {
        assert t.cells[n].key == k;
      }
    }
  }

  /** Level 0 as the invariant has it. */
  lemma {:induction false} BottomLevel(s: State, ls: seq<seq<Ref>>)
    requires InvWith(s, ls)
    ensures |ls| == MAX_HEIGHT && IsLevel(s.cells, 0, ls[0]) && Ascending(s.cells, ls[0])
    ensures Level(s.cells, 0) == ls[0]
  {
    assert IsLevel(s.cells, 0, ls[0]) && Ascending(s.cells, ls[0]);
    LevelIs(s.cells, 0, ls[0]);
    hide *;
  }

  lemma {:induction false} WriterDates(s: State, t: State, ls: seq<seq<Ref>>) returns (ls': seq<seq<Ref>>)
    requires InvWith(s, ls) && UpToDate(s.cells, s.writer, s.history, ls[0]) && WriterStep(s, t)
    ensures InvWith(t, ls') && UpToDate(t.cells, t.writer, t.history, ls'[0])
  {
    ls' := ls;
    BottomLevel(s, ls);
    hide InvWith;
    hide UpToDate;
    if Allocate(s, t) {
      AllocateKeeps(s, t, ls);
      AllocateDates(s, t, ls[0]);
    } else if OwnStore(s, t) {
      OwnStoreKeeps(s, t, ls);
      OwnStoreDates(s, t, ls[0]);
    } else if Publish(s, t) {
      ls' := PublishKeeps(s, t, ls);
      LinkedAlready(s, ls);
      PublishDates(s, t, ls[0], ls'[0]);
    } else if Finish(s, t) {
      FinishKeeps(s, t, ls);
      LinkedAlready(s, ls);
      FinishDates(s, t, ls[0]);
    } else if exists r, v :: Replace(s, t, r, v) {
      var r, v :| Replace(s, t, r, v);
      ReplaceKeeps(s, t, r, v, ls);
      ReplaceDates(s, t, r, v, ls[0]);
    } else {
      var k, v, h, prev :| Find(s, t, k, v, h, prev);
      FindKeeps(s, t, k, v, h, prev, ls);
      FindIsNew(s, t, k, v, h, prev, ls);
      FindDates(s, t, k, v, h, prev, ls[0]);
    }
  }

  lemma {:induction false} FindIsNew(s: State, t: State, k: Key, v: Event, h: nat, prev: seq<Ref>, ls: seq<seq<Ref>>)
    requires InvWith(s, ls) && Find(s, t, k, v, h, prev)
    ensures forall r :: r in ls[0] && r < |s.cells| ==> s.cells[r].key != k
  {
    BottomLevel(s, ls);
    assert 0 < s.maxHeight;
    PredMeansAbsent(s.cells, ls[0], prev[0], k);
    hide IsPred;
    hide Level;
  }

  /** What the writer has linked on some level is on the bottom level, and its node has at least one level. */
  lemma {:induction false} LinkedAlready(s: State, ls: seq<seq<Ref>>)
    requires InvWith(s, ls) && s.writer.Linking?
    ensures s.writer.n < |s.cells| && |s.cells[s.writer.n].next| >= 1 && |ls| == MAX_HEIGHT
    ensures s.writer.level > 0 ==> s.writer.n in ls[0]
  {
    hide Tower;
    hide ReaderInv;
    hide IsPred;
  }

  lemma {:induction false} AllocateDates(s: State, t: State, c: seq<Ref>)
    requires UpToDate(s.cells, s.writer, s.history, c) && Allocate(s, t)
    ensures UpToDate(t.cells, t.writer, t.history, c)
  {
    OthersDate(s, t, c);
  }

  lemma {:induction false} OwnStoreDates(s: State, t: State, c: seq<Ref>)
    requires UpToDate(s.cells, s.writer, s.history, c) && OwnStore(s, t)
    ensures UpToDate(t.cells, t.writer, t.history, c)
  {
    OthersDate(s, t, c);
  }

  lemma {:induction false} FinishDates(s: State, t: State, c: seq<Ref>)
    requires UpToDate(s.cells, s.writer, s.history, c) && Finish(s, t)
    requires s.writer.n < |s.cells| && |s.cells[s.writer.n].next| >= 1 && (s.writer.level > 0 ==> s.writer.n in c)
    ensures UpToDate(t.cells, t.writer, t.history, c)
  {
    OthersDate(s, t, c);
  }

  /** A reader's step leaves the list and the writer alone. */
  lemma {:induction false} ReaderLeaves(s: State, t: State, i: nat)
    requires ReaderStep(s, t, i)
    ensures t.cells == s.cells && t.writer == s.writer && t.history == s.history
  {
    hide AfterLoad;
  }

  lemma {:induction false} StepDates(s: State, t: State, ls: seq<seq<Ref>>) returns (ls': seq<seq<Ref>>)
    requires InvWith(s, ls) && UpToDate(s.cells, s.writer, s.history, ls[0]) && Next(s, t)
    ensures InvWith(t, ls') && UpToDate(t.cells, t.writer, t.history, ls'[0])
  {
    hide InvWith;
    hide UpToDate;
    hide WriterStep;
    hide ReaderStep;
    if WriterStep(s, t) {
      ls' := WriterDates(s, t, ls);
    } else {
      var i :| ReaderStep(s, t, i);
      ls' := ls;
      ReaderKeeps(s, t, i, ls);
      ReaderLeaves(s, t, i);
    }
  }

  lemma {:induction false} InitDates(s: State, c: seq<Ref>)
    requires Init(s) && c == []
    ensures UpToDate(s.cells, s.writer, s.history, c)
  {
  }

  lemma {:induction false} RunDates(states: seq<State>, i: nat) returns (ls: seq<seq<Ref>>)
    requires Run(states) && i < |states|
    ensures InvWith(states[i], ls) && UpToDate(states[i].cells, states[i].writer, states[i].history, ls[0])
  {
    hide InvWith;
    hide UpToDate;
    if i == 0 {
      ls := seq(MAX_HEIGHT, _ => []);
      InitInv(states[0]);
      InitDates(states[0], ls[0]);
    } else {
      ls := RunDates(states, i - 1);
      assert Next(states[i - 1], states[i - 1 + 1]);
      hide Next;
      ls := StepDates(states[i - 1], states[i], ls);
    }
  }

  /** In every state of every interleaving each node of level 0 holds the value last inserted under its key, and between
      insertions every key ever inserted is there: the list is the map of the latest insertions. */
  lemma {:induction false} HoldsLatest(states: seq<State>, i: nat)
    requires Run(states) && i < |states|
    ensures var s := states[i];
            forall r :: r in Level(s.cells, 0)
              ==> r < |s.cells| && Latest(s.history, s.cells[r].key) == Some(s.cells[r].val)
    ensures var s := states[i];
            s.writer == Idle ==> forall k :: k in Keys(s.cells) <==> Latest(s.history, k).Some?
  {
    var s := states[i];
    var ls := RunDates(states, i);
    BottomLevel(s, ls);
    hide InvWith;
    hide Level;
    hide Latest;
    if s.writer == Idle {
      forall k ensures k in Keys(s.cells) <==> Latest(s.history, k).Some? {
        if Latest(s.history, k).Some? {
          assert InChain(s.cells, ls[0], k);
        }
      }
    }
  }

  /** How many keys of the chain, from the front, lie below k. */
  ghost function RankIn(cells: seq<Cell>, c: seq<Ref>, k: Key, from: nat): (r: nat)
    requires from <= |c| && forall i :: 0 <= i < |c| ==> c[i] < |cells|
    ensures from <= r <= |c| && (forall i :: from <= i < r ==> Less(cells[c[i]].key, k))
    ensures r < |c| ==> !Less(cells[c[r]].key, k)
    decreases |c| - from
  {
    if from == |c| || !Less(cells[c[from]].key, k) then from else RankIn(cells, c, k, from + 1)
  }

  lemma {:induction false} PredExists(cells: seq<Cell>, c: seq<Ref>, k: Key) returns (x: Ref)
    requires Ascending(cells, c) && forall r :: r in c && r < |cells| ==> cells[r].key != k
    ensures IsPred(cells, c, x, k)
  {
    var r := RankIn(cells, c, k, 0);
    x := At(c, r);
    forall i | r <= i < |c| ensures Less(k, cells[c[i]].key) {
      LessTotal(cells[c[r]].key, k);
      assert c[r] in c;
      if r < i {
        LessTransitive(k, cells[c[r]].key, cells[c[i]].key);
      }
    }
    assert PredAt(cells, c, x, k, r);
  }

  lemma {:induction false} PredHasLevel(cells: seq<Cell>, l: nat, c: seq<Ref>, x: Ref, k: Key)
    requires IsLevel(cells, l, c) && IsPred(cells, c, x, k)
    ensures HasLevel(cells, x, l)
  {
    var r: nat :| PredAt(cells, c, x, k, r);
    assert LevelAt(cells, l, c, r);
  }

  /** Predecessors of an absent key exist on every level. */
  lemma {:induction false} PredsExist(s: State, ls: seq<seq<Ref>>, k: Key, n: nat) returns (prev: seq<Ref>)
    requires InvWith(s, ls) && n <= MAX_HEIGHT && forall r :: r in ls[0] && r < |s.cells| ==> s.cells[r].key != k
    ensures |prev| == n
    ensures forall l :: 0 <= l < n ==>
              if l < s.maxHeight then IsPred(s.cells, Level(s.cells, l), prev[l], k) else prev[l] == 0
  {
    if n == 0 {
      prev := [];
    } else {
      prev := PredsExist(s, ls, k, n - 1);
      var l := n - 1;
      assert IsLevel(s.cells, l, ls[l]) && Ascending(s.cells, ls[l]);
      LevelIs(s.cells, l, ls[l]);
      if l > 0 {
        assert Within(ls[l], ls[0]);
      }
      var x := PredExists(s.cells, ls[l], k);
      prev := prev + [if l < s.maxHeight then x else 0];
    }
  }

  /** In every reachable state an idle writer can begin inserting any key at any height, and a busy one can take its
      next step: every pointer it is about to follow exists. */
  lemma {:induction false} WriterNeverStuck(states: seq<State>, i: nat, k: Key, v: Event, h: nat)
    requires Run(states) && i < |states| && 1 <= h <= MAX_HEIGHT
    ensures var s := states[i];
            if s.writer == Idle then
              || (exists t, r: Ref :: Replace(s, t, r, v) && s.cells[r].key == k)
              || (exists t, prev :: Find(s, t, k, v, h, prev))
            else exists t :: WriterStep(s, t)
  {
    var ls := RunInv(states, i);
    var s := states[i];
    if s.writer == Idle {
      CanBegin(s, ls, k, v, h);
    } else {
      CanContinue(s, ls);
    }
  }

  lemma {:induction false} CanBegin(s: State, ls: seq<seq<Ref>>, k: Key, v: Event, h: nat)
    requires InvWith(s, ls) && s.writer == Idle && 1 <= h <= MAX_HEIGHT
    ensures (exists t, r: Ref :: Replace(s, t, r, v) && s.cells[r].key == k)
            || (exists t, prev :: Find(s, t, k, v, h, prev))
  {
    assert IsLevel(s.cells, 0, ls[0]);
    LevelIs(s.cells, 0, ls[0]);
    if r :| r in ls[0] && r < |s.cells| && s.cells[r].key == k {
      var t := s.(cells := s.cells[r := s.cells[r].(val := v)], history := s.history + [Seen(s.cells[r].key, v)]);
      assert Replace(s, t, r, v);
    } else {
      var prev := PredsExist(s, ls, k, MAX_HEIGHT);
      var t := s.(writer := Found(k, v, h, prev), history := s.history + [Seen(k, v)]);
      assert Find(s, t, k, v, h, prev);
    }
  }

  lemma {:induction false} CanContinue(s: State, ls: seq<seq<Ref>>)
    requires InvWith(s, ls) && s.writer != Idle
    ensures exists t :: WriterStep(s, t)
  {
    var w := s.writer;
    if w.Found? {
      var t := s.(cells := s.cells + [Cell(w.k, w.v, NewCells(w.h))],
                  maxHeight := if w.h > s.maxHeight then w.h else s.maxHeight,
                  writer := Linking(|s.cells|, w.prev, 0, false));
      assert Allocate(s, t);
      assert WriterStep(s, t);
    } else if w.level == |s.cells[w.n].next| {
      var t := s.(writer := Idle, count := s.count + 1);
      assert Finish(s, t);
      assert WriterStep(s, t);
    } else {
      var l := w.level;
      assert IsLevel(s.cells, l, ls[l]) && IsPred(s.cells, ls[l], w.prev[l], s.cells[w.n].key);
      PredHasLevel(s.cells, l, ls[l], w.prev[l], s.cells[w.n].key);
      if w.own {
        var t := s.(cells := StoreNext(s.cells, w.prev[l], l, Some(w.n)), writer := w.(level := l + 1, own := false));
        assert Publish(s, t);
        assert WriterStep(s, t);
      } else {
        var t := s.(cells := StoreNext(s.cells, w.n, l, s.cells[w.prev[l]].next[l]), writer := w.(own := true));
        assert OwnStore(s, t);
        assert WriterStep(s, t);
      }
    }
  }

  /** A reader in the middle of a search or a scan can always take its next load, until it stands at the end. */
  lemma {:induction false} ReaderNeverStuck(states: seq<State>, i: nat, reader: nat)
    requires Run(states) && i < |states| && reader < |states[i].readers|
    requires var r := states[i].readers[reader]; r.Seeking? || (r.Reading? && r.node.Some?)
    ensures exists t :: ReaderStep(states[i], t, reader)
  {
    var ls := RunInv(states, i);
    CanLoad(states[i], ls, reader);
  }

  lemma {:induction false} CanLoad(s: State, ls: seq<seq<Ref>>, reader: nat)
    requires InvWith(s, ls) && reader < |s.readers|
    requires var r := s.readers[reader]; r.Seeking? || (r.Reading? && r.node.Some?)
    ensures exists t :: ReaderStep(s, t, reader)
  {
    var r := s.readers[reader];
    assert ReaderInv(s.cells, r, s.history, ls);
    if r.Seeking? {
      OnLevel(s.cells, r.level, ls[r.level], r.x);
      var t := s.(readers := s.readers[reader := AfterLoad(s.cells, r)]);
      assert SeekLoad(s, t, reader);
      assert ReaderStep(s, t, reader);
    } else if r.visited {
      OnLevel(s.cells, 0, ls[0], r.node.value);
      var t := s.(readers := s.readers[reader := r.(visited := false, node := s.cells[r.node.value].next[0])]);
      assert Advance(s, t, reader);
      assert ReaderStep(s, t, reader);
    } else {
      var x := s.cells[r.node.value];
      var t := s.(readers := s.readers[reader := r.(visited := true, seen := r.seen + [Seen(x.key, x.val)])]);
      assert Visit(s, t, reader);
      assert ReaderStep(s, t, reader);
    }
  }

  lemma {:induction false} OnLevel(cells: seq<Cell>, l: nat, c: seq<Ref>, x: Ref)
    requires IsLevel(cells, l, c) && (x == 0 || x in c)
    ensures HasLevel(cells, x, l)
  {
    if x == 0 {
      assert LevelAt(cells, l, c, 0);
    } else {
      var i :| 0 <= i < |c| && c[i] == x;
      assert LevelAt(cells, l, c, i + 1);
    }
  }
}
