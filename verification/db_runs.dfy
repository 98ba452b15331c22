/** What queries answer after any run of operations. */
module DBRuns {
  import opened Bytes
  import opened Core
  import opened Compactions
  import opened DBModel
  import opened TableFormat
  import E = Events
  import R = CompactionRuns

  // ---- the log of a run ----

  datatype Named = Named(symbol: string, event: Event)

  /** The appended events in order, under the names they were appended with. */
  function Log(ops: seq<Op>, target: nat): seq<Named> {
    if ops == [] then []
    else
      var n := |ops| - 1;
      Log(ops[..n], target) +
      match ops[n]
      case Append(symbol, body, _) => [Named(symbol, Stamped(Run(ops[..n], target), symbol, body))]
      case _ => []
  }

  function Logged(log: seq<Named>): (es: seq<Event>)
    ensures |es| == |log| && forall i :: 0 <= i < |es| ==> es[i] == log[i].event
  {
    seq(|log|, i requires 0 <= i < |log| => log[i].event)
  }

  /** What a query asks for, in terms of names. */
  function Expected(log: seq<Named>, req: Request): seq<Event> {
    if log == [] then []
    else
      var x := log[0];
      (if x.symbol == req.symbol && req.start <= x.event.ts <= req.end && Wanted(x.event, req) then [x.event] else [])
      + Expected(log[1..], req)
  }

  // ---- symbols ----

  /** Ids count up from 1 and are never reused. */
  ghost predicate SymbolsFine(s: State) {
    && s.nextId == (|s.symbols| + 1) % TWO_32
    && (forall n :: n in s.symbols ==> 1 <= s.symbols[n] <= |s.symbols|)
    && (forall m, n :: m in s.symbols && n in s.symbols && s.symbols[m] == s.symbols[n] ==> m == n)
  }

  lemma {:induction false} InternFine(s: State, name: string)
    requires SymbolsFine(s) && |Intern(s, name).symbols| < TWO_32
    ensures SymbolsFine(Intern(s, name)) && |s.symbols| < TWO_32
    ensures name in Intern(s, name).symbols && Intern(s, name).symbols[name] == IdOf(s, name)
    ensures forall n :: n in s.symbols ==> n in Intern(s, name).symbols && Intern(s, name).symbols[n] == s.symbols[n]
  {
    if name !in s.symbols {
      KeysGrow(s.symbols, name, s.nextId);
      var t := Intern(s, name);
      assert t.symbols == s.symbols[name := s.nextId] && s.nextId == |s.symbols| + 1;
    }
  }

  lemma {:induction false} KeysGrow(m: map<string, u32>, k: string, v: u32)
    ensures |m| <= |m[k := v]|
    ensures k !in m ==> |m[k := v]| == |m| + 1
  {
    assert m[k := v].Keys == m.Keys + {k};
    if k in m {
      assert m.Keys + {k} == m.Keys;
    } else {
      assert |m.Keys + {k}| == |m.Keys| + 1;
    }
    assert |m| == |m.Keys| && |m[k := v]| == |m[k := v].Keys|;
  }

  // ---- append-only runs ----

  predicate AppendOnly(ops: seq<Op>) {
    forall i :: 0 <= i < |ops| ==> !ops[i].Remove?
  }

  /** Sequence ids and symbol ids have not wrapped around. */
  ghost predicate InWidth(s: State, log: seq<Named>) {
    |log| < TWO_64 && |s.symbols| < TWO_32
  }

  ghost predicate LogFine(s: State, log: seq<Named>) {
    && s.nextSeq == (|log| + 1) % TWO_64
    && (forall i :: 0 <= i < |log| ==> log[i].event.seqId == i + 1)
    && (forall i :: 0 <= i < |log| ==> log[i].symbol in s.symbols && s.symbols[log[i].symbol] == log[i].event.sym)
  }

  ghost predicate RunsSorted(p: seq<seq<Event>>) {
    forall i :: 0 <= i < |p| ==> E.Sorted(p[i])
  }

  ghost predicate StateSorted(s: State) {
    E.Sorted(s.active) && RunsSorted(s.imms) && AllSorted(s.l0)
  }

  /** The sources hold each logged event exactly once and nothing else. */
  ghost predicate Inv(s: State, log: seq<Named>) {
    SymbolsFine(s) && LogFine(s, log) && StateSorted(s) && Bag(Sources(s)) == multiset(Logged(log))
  }

  lemma {:induction false} LogDistinct(s: State, log: seq<Named>)
    requires LogFine(s, log)
    ensures DistinctKeys(Logged(log))
  {
  }

  lemma {:induction false} InsertSorted(s: State, e: Event, rotate: bool)
    requires StateSorted(s)
    ensures StateSorted(Insert(s, e, rotate))
  {
    E.UpsertSorted(s.active, e);
  }

  lemma {:induction false} InsertBag(s: State, e: Event, rotate: bool)
    requires forall d :: d in s.active ==> KeyOf(d) != KeyOf(e)
    ensures Bag(Sources(Insert(s, e, rotate))) == Bag(Sources(s)) + multiset{e}
  {
    var t, a := Insert(s, e, rotate), E.Upsert(s.active, e);
    UpsertBag(s.active, e);
    SourcesBag(s);
    SourcesBag(t);
    hide E.Upsert;
    hide Sources;
    hide Runs;
    if rotate {
      BagConcat(s.imms, [a]);
      BagOfOne(a);
    }
  }

  lemma {:induction false} ActiveInBag(s: State, d: Event)
    requires d in s.active
    ensures d in Bag(Sources(s))
  {
    SourcesBag(s);
    assert d in multiset(s.active);
  }

  lemma {:induction false} LogExtends(s: State, log: seq<Named>, t: State, x: Named)
    requires LogFine(s, log) && |log| + 1 < TWO_64 && t.nextSeq == (s.nextSeq + 1) % TWO_64
    requires x.event.seqId == s.nextSeq && x.symbol in t.symbols && t.symbols[x.symbol] == x.event.sym
    requires forall n :: n in s.symbols ==> n in t.symbols && t.symbols[n] == s.symbols[n]
    ensures LogFine(t, log + [x])
  {
    assert s.nextSeq == |log| + 1;
    assert t.nextSeq == (|log + [x]| + 1) % TWO_64;
  }

  lemma {:induction false} AppendFields(s: State, symbol: string, body: Event, rotate: bool, target: nat)
    ensures var t, i, e := Step(s, Append(symbol, body, rotate), target), Intern(s, symbol), Stamped(s, symbol, body);
            && t.symbols == i.symbols && t.nextId == i.nextId && t.nextSeq == (s.nextSeq + 1) % TWO_64
            && e.seqId == s.nextSeq && e.sym == IdOf(s, symbol)
  {
    hide E.Upsert;
    hide IdOf;
  }

  lemma {:induction false} AppendLog(s: State, log: seq<Named>, symbol: string, body: Event, rotate: bool, target: nat)
    requires SymbolsFine(s) && LogFine(s, log)
    requires InWidth(Step(s, Append(symbol, body, rotate), target), log + [Named(symbol, Stamped(s, symbol, body))])
    ensures var t := Step(s, Append(symbol, body, rotate), target);
            SymbolsFine(t) && LogFine(t, log + [Named(symbol, Stamped(s, symbol, body))])
  {
    var i, t := Intern(s, symbol), Step(s, Append(symbol, body, rotate), target);
    var x := Named(symbol, Stamped(s, symbol, body));
    AppendFields(s, symbol, body, rotate, target);
    assert |i.symbols| < TWO_32 && |log| + 1 < TWO_64;
    hide Step;
    hide Stamped;
    hide Intern;
    hide IdOf;
    hide LogFine;
    InternFine(s, symbol);
    LogExtends(s, log, t, x);
  }

  /** The event's sequence id is new, so its key is. */
  lemma {:induction false} NewKey(s: State, log: seq<Named>, e: Event)
    requires Inv(s, log) && |log| + 1 < TWO_64 && e.seqId == s.nextSeq
    ensures forall d :: d in s.active ==> KeyOf(d) != KeyOf(e)
  {
    forall d | d in s.active ensures KeyOf(d) != KeyOf(e) {
      ActiveInBag(s, d);
      assert d in multiset(Logged(log));
      var j :| 0 <= j < |log| && Logged(log)[j] == d;
    }
  }

  lemma {:induction false} AppendStep(s: State, log: seq<Named>, symbol: string, body: Event, rotate: bool, target: nat)
    requires Inv(s, log)
    requires InWidth(Step(s, Append(symbol, body, rotate), target), log + [Named(symbol, Stamped(s, symbol, body))])
    ensures Inv(Step(s, Append(symbol, body, rotate), target), log + [Named(symbol, Stamped(s, symbol, body))])
  {
    var e := Stamped(s, symbol, body);
    var i, u := Intern(s, symbol), Step(s, Append(symbol, body, rotate), target);
    var log' := log + [Named(symbol, e)];
    assert |log| + 1 < TWO_64;
    assert i.active == s.active && i.imms == s.imms && i.l0 == s.l0 && i.l1 == s.l1;
    assert Sources(i) == Sources(s) && Sources(u) == Sources(Insert(i, e, rotate));
    assert StateSorted(i) && (StateSorted(u) <==> StateSorted(Insert(i, e, rotate)));
    assert Logged(log') == Logged(log) + [e];
    NewKey(s, log, e);
    AppendLog(s, log, symbol, body, rotate, target);
    hide Sources;
    hide Step;
    hide Insert;
    hide Stamped;
    hide Logged;
    hide StateSorted;
    hide SymbolsFine;
    hide LogFine;
    hide InWidth;
    InsertSorted(i, e, rotate);
    InsertBag(i, e, rotate);
  }

  lemma {:induction false} FlushStep(s: State, log: seq<Named>)
    requires Inv(s, log)
    ensures Inv(Flushed(s), log)
  {
    var t := Flushed(s);
    var p := Pending(s);
    FlushBag(s);
    assert RunsSorted(p);
    forall i | 0 <= i < |t.l0| ensures E.Sorted(t.l0[i].events) {
      if i >= |s.l0| {
        assert t.l0[i].events == p[i - |s.l0|];
      }
    }
  }

  lemma {:induction false} FlushBag(s: State)
    ensures Bag(Sources(Flushed(s))) == Bag(Sources(s))
  {
    var t := Flushed(s);
    SourcesBag(s);
    SourcesBag(t);
    RunsConcat(s.l0, Numbered(Pending(s), s.sstSeq));
    RunsNumbered(Pending(s), s.sstSeq);
    BagConcat(Runs(s.l0), Pending(s));
    if s.active != [] {
      BagConcat(s.imms, [s.active]);
      BagOfOne(s.active);
    } else {
      assert Pending(s) == s.imms;
    }
  }

  lemma {:induction false} CompactKeeps(s: State, target: nat)
    ensures var t := Compacted(s, target);
            && t.symbols == s.symbols && t.nextId == s.nextId && t.nextSeq == s.nextSeq
            && t.active == s.active && t.imms == s.imms && (t.l0 == s.l0 || t.l0 == [])
  {
    hide NewTables;
    hide SortBySeq;
  }

  lemma {:induction false} CompactStep(s: State, log: seq<Named>, target: nat)
    requires Inv(s, log)
    ensures Inv(Compacted(s, target), log)
  {
    hide Compacted;
    hide Sources;
    hide Logged;
    hide Join;
    LogDistinct(s, log);
    DistinctByBag(Join(Sources(s)), Logged(log));
    Level0Distinct(s);
    CompactBag(s, target);
    CompactKeeps(s, target);
  }

  lemma {:induction false} Level0Distinct(s: State)
    requires DistinctKeys(Join(Sources(s)))
    ensures DistinctKeys(Join(Runs(s.l0)))
  {
    var a := [s.active] + s.imms;
    JoinConcat(a + Runs(s.l0), Runs(s.l1));
    JoinConcat(a, Runs(s.l0));
    MiddleDistinct(Join(a), Join(Runs(s.l0)), Join(Runs(s.l1)));
  }

  lemma {:induction false} MiddleDistinct(a: seq<Event>, b: seq<Event>, c: seq<Event>)
    requires DistinctKeys(a + b + c)
    ensures DistinctKeys(b)
  {
    forall i, j | 0 <= i < j < |b| ensures KeyOf(b[i]) != KeyOf(b[j]) {
      assert (a + b + c)[|a| + i] == b[i] && (a + b + c)[|a| + j] == b[j];
    }
  }

  /** With distinct keys a compaction only moves events. */
  lemma {:induction false} CompactBag(s: State, target: nat)
    requires AllSorted(s.l0) && DistinctKeys(Join(Runs(s.l0)))
    ensures Bag(Sources(Compacted(s, target))) == Bag(Sources(s))
  {
    if s.l0 != [] {
      var all := Merged(s.l0, 1);
      var c, added := R.Chunked(all, R.PerFile(target)), NewTables(s, target);
      MergeKeepsAll(s.l0);
      R.ChunkSizes(all, R.PerFile(target));
      RunsNumbered(c, s.sstSeq);
      SourcesBag(s);
      SourcesBag(Compacted(s, target));
      SortBySeqBag(s.l1 + added);
      RunsConcat(s.l1, added);
      BagConcat(Runs(s.l1), Runs(added));
      assert Bag(Runs(added)) == Bag(Runs(s.l0));
    }
  }

  lemma {:induction false} LogGrows(ops: seq<Op>, target: nat, n: nat)
    requires n <= |ops|
    ensures |Log(ops[..n], target)| <= |Log(ops, target)|
    ensures |Run(ops[..n], target).symbols| <= |Run(ops, target).symbols|
    decreases |ops|
  {
    if n < |ops| {
      var m := |ops| - 1;
      LogGrows(ops[..m], target, n);
      assert ops[..m][..n] == ops[..n];
      SymbolsGrow(Run(ops[..m], target), ops[m], target);
    } else {
      assert ops[..n] == ops;
    }
  }

  lemma {:induction false} SymbolsGrow(s: State, op: Op, target: nat)
    ensures |s.symbols| <= |Step(s, op, target).symbols|
  {
    if op.Append? || op.Remove? {
      KeysGrow(s.symbols, op.symbol, s.nextId);
    }
  }

  lemma {:induction false} RunInv(ops: seq<Op>, target: nat)
    requires AppendOnly(ops) && InWidth(Run(ops, target), Log(ops, target))
    ensures Inv(Run(ops, target), Log(ops, target))
  {
    if ops == [] {
      FreshInv();
    } else {
      var n := |ops| - 1;
      var s, log := Run(ops[..n], target), Log(ops[..n], target);
      LogGrows(ops, target, n);
      assert InWidth(s, log) && AppendOnly(ops[..n]) && !ops[n].Remove?;
      RunInv(ops[..n], target);
      LogStep(ops, target);
      hide *;
      match ops[n]
      case Append(symbol, body, rotate) => AppendStep(s, log, symbol, body, rotate, target);
      case FlushNow => FlushStep(s, log);
      case CompactNow => CompactStep(s, log, target);
    }
  }

  lemma {:induction false} FreshInv()
    ensures Inv(FRESH, []) && Run([], 0) == FRESH
  {
    assert Sources(FRESH) == [[]];
    BagOfOne([]);
  }

  lemma {:induction false} LogStep(ops: seq<Op>, target: nat)
    requires ops != []
    ensures var n := |ops| - 1;
            var s, log, t := Run(ops[..n], target), Log(ops[..n], target), Run(ops, target);
            match ops[n]
            case Append(symbol, body, rotate) =>
              t == Step(s, ops[n], target) && Log(ops, target) == log + [Named(symbol, Stamped(s, symbol, body))]
            case Remove(_, _, _, _) => t == Step(s, ops[n], target) && Log(ops, target) == log
            case FlushNow => t == Flushed(s) && Log(ops, target) == log
            case CompactNow => t == Compacted(s, target) && Log(ops, target) == log
  {
    hide Insert;
    hide Intern;
    hide Flushed;
    hide Compacted;
    hide Stamped;
  }

  lemma {:induction false} ExpectedIsSelect(s: State, log: seq<Named>, req: Request)
    requires SymbolsFine(s)
    requires forall i :: 0 <= i < |log| ==> log[i].symbol in s.symbols && s.symbols[log[i].symbol] == log[i].event.sym
    ensures req.symbol in s.symbols ==> Expected(log, req) == Select(Logged(log), s.symbols[req.symbol], req)
    ensures req.symbol !in s.symbols ==> Expected(log, req) == []
  {
    if log != [] {
      ExpectedIsSelect(s, log[1..], req);
      assert Logged(log)[1..] == Logged(log[1..]);
    }
  }

  lemma {:induction false} SelectBag(a: seq<Event>, b: seq<Event>, sym: u32, req: Request)
    requires multiset(a) == multiset(b)
    ensures multiset(Select(a, sym, req)) == multiset(Select(b, sym, req))
  {
    forall e ensures multiset(Select(a, sym, req))[e] == multiset(Select(b, sym, req))[e] {
      SelectCounts(a, sym, req, e);
      SelectCounts(b, sym, req, e);
    }
  }

  /** Everything a query would return without a limit. */
  function Unlimited(s: State, req: Request): seq<Event> {
    if req.symbol !in s.symbols then [] else Select(Join(Sources(s)), s.symbols[req.symbol], req)
  }

  /** These rows, in some order, and no key twice. */
  ghost predicate ExactlyOnce(all: seq<Event>, expected: seq<Event>) {
    multiset(all) == multiset(expected) && DistinctKeys(all)
  }

  /** After any appends, flushes and compactions, the sources hold the matching appended events, each exactly once.
      Runs here are the model's, which tells tables apart by position and not by name. */
  lemma {:induction false} AppendedExactlyOnce(ops: seq<Op>, target: nat, req: Request)
    requires AppendOnly(ops) && InWidth(Run(ops, target), Log(ops, target))
    ensures ExactlyOnce(Unlimited(Run(ops, target), req), Expected(Log(ops, target), req))
  {
    var s, log := Run(ops, target), Log(ops, target);
    RunInv(ops, target);
    ExpectedIsSelect(s, log, req);
    LogDistinct(s, log);
    if req.symbol in s.symbols {
      var sym := s.symbols[req.symbol];
      SelectBag(Join(Sources(s)), Logged(log), sym, req);
      SelectDistinct(Logged(log), sym, req);
      DistinctByBag(Unlimited(s, req), Select(Logged(log), sym, req));
    }
  }

  lemma {:induction false} SelectDistinct(es: seq<Event>, sym: u32, req: Request)
    requires DistinctKeys(es)
    ensures DistinctKeys(Select(es, sym, req))
  {
    if es != [] {
      SelectDistinct(es[1..], sym, req);
      forall e | e in Select(es[1..], sym, req) ensures KeyOf(e) != KeyOf(es[0]) {
        SelectMember(es[1..], sym, req, e);
        var j :| 0 <= j < |es[1..]| && es[1..][j] == e;
        assert es[j + 1] == e;
      }
    }
  }
}
