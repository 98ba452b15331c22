/** What a query returns, said of the visited events and of the appends themselves: the symbol, the inclusive times,
    every type but 0xFF or the one asked for, and the limit, which is 1000 when none is given. */
module DBAnswers {
  import opened Bytes
  import opened Core
  import opened Compactions
  import opened DBModel
  import opened DBRuns
  import opened TableFormat
  import opened Wrappers
  import E = Events

  // ---- of any state ----

  /** The places of the events asked for, in ascending order and without omission. */
  ghost predicate Places(idx: seq<nat>, es: seq<Event>, sym: u32, req: Request) {
    && (forall i, j :: 0 <= i < j < |idx| ==> idx[i] < idx[j])
    && (forall i :: 0 <= i < |idx| ==> idx[i] < |es|)
    && forall k: nat :: k < |es| ==>
         (k in idx <==> es[k].sym == sym && req.start <= es[k].ts <= req.end && es[k].kind != 0xFF
                        && (req.kind == None || req.kind == Some(es[k].kind)))
  }

  /** All of them, or as many as the limit allows. */
  ghost predicate Limited(n: nat, all: nat, req: Request) {
    var cap := if req.limit > 0 then req.limit else 1000;
    n == if all < cap then all else cap
  }

  /** The rows are the first of the events asked for, as they stand in the visited ones. */
  ghost predicate FirstAsked(rows: seq<Event>, es: seq<Event>, sym: u32, req: Request) {
    exists idx: seq<nat> :: Places(idx, es, sym, req) && Limited(|rows|, |idx|, req)
                         && forall i :: 0 <= i < |rows| ==> rows[i] == es[idx[i]]
  }

  lemma {:induction false} MatchesMeans(e: Event, sym: u32, req: Request)
    ensures Matches(e, sym, req) <==> e.sym == sym && req.start <= e.ts <= req.end && e.kind != 0xFF
                                      && (req.kind == None || req.kind == Some(e.kind))
  {
  }

  ghost predicate Stand(rows: seq<Event>, idx: seq<nat>, es: seq<Event>) {
    |idx| == |rows| && forall i :: 0 <= i < |idx| ==> idx[i] < |es| && rows[i] == es[idx[i]]
  }

  lemma {:induction false} SelectPlaces(es: seq<Event>, sym: u32, req: Request) returns (idx: seq<nat>)
    ensures Places(idx, es, sym, req) && Stand(Select(es, sym, req), idx, es)
  {
    if es == [] {
      idx := [];
    } else {
      var n := |es| - 1;
      hide *;
      var before := SelectPlaces(es[..n], sym, req);
      SelectSnoc(es, sym, req);
      PlacesSnoc(es, before, sym, req);
      StandSnoc(Select(es[..n], sym, req), before, es);
      idx := if Matches(es[n], sym, req) then before + [n] else before;
    }
  }

  lemma {:induction false} StandSnoc(rows: seq<Event>, idx: seq<nat>, es: seq<Event>)
    requires es != [] && Stand(rows, idx, es[..|es| - 1])
    ensures Stand(rows, idx, es) && Stand(rows + [es[|es| - 1]], idx + [|es| - 1], es)
    ensures rows + [] == rows
  {
  }

  lemma {:induction false} SelectSnoc(es: seq<Event>, sym: u32, req: Request)
    requires es != []
    ensures var n := |es| - 1;
            Select(es, sym, req) == Select(es[..n], sym, req) + if Matches(es[n], sym, req) then [es[n]] else []
  {
    var n := |es| - 1;
    hide *;
    assert es == es[..n] + [es[n]];
    SelectConcat(es[..n], [es[n]], sym, req);
    SelectOne(es[n], sym, req);
  }

  lemma {:induction false} SelectOne(e: Event, sym: u32, req: Request)
    ensures Select([e], sym, req) == if Matches(e, sym, req) then [e] else []
  {
    assert Select([e][1..], sym, req) == [];
    hide Matches;
  }

  lemma {:induction false} PlacesSnoc(es: seq<Event>, before: seq<nat>, sym: u32, req: Request)
    requires es != [] && Places(before, es[..|es| - 1], sym, req)
    ensures Places(if Matches(es[|es| - 1], sym, req) then before + [|es| - 1] else before, es, sym, req)
    ensures forall i :: 0 <= i < |before| ==> before[i] < |es| - 1
  {
    var n := |es| - 1;
    MatchesMeans(es[n], sym, req);
    hide Matches;
    assert n !in before;
    assert forall k: nat :: k < n ==> es[..n][k] == es[k];
  }

  /** The answer in any state: the active memtable, the immutable ones, level 0 and level 1 are visited in this
      order. */
  lemma {:induction false} AnswerIsFirst(s: State, req: Request)
    ensures req.symbol !in s.symbols ==> Answer(s, req) == []
    ensures req.symbol in s.symbols ==>
              FirstAsked(Answer(s, req), s.active + Join(s.imms) + Join(Runs(s.l0))
                + Join(Runs(s.l1)), s.symbols[req.symbol], req)
  {
    if req.symbol in s.symbols {
      var es, sym := Join(Sources(s)), s.symbols[req.symbol];
      Visited(s);
      var idx := SelectPlaces(es, sym, req);
      assert Limited(|Answer(s, req)|, |idx|, req);
      hide Places;
      hide Select;
      hide Join;
      hide Runs;
    }
  }

  lemma {:induction false} Visited(s: State)
    ensures Join(Sources(s)) == s.active + Join(s.imms) + Join(Runs(s.l0)) + Join(Runs(s.l1))
  {
    JoinConcat([s.active] + s.imms + Runs(s.l0), Runs(s.l1));
    JoinConcat([s.active] + s.imms, Runs(s.l0));
    JoinConcat([s.active], s.imms);
    BagOfOne(s.active);
    hide Join;
    hide Runs;
  }

  // ---- of a run of appends ----

  /** An append that the query asks for. */
  ghost predicate Asked(op: Op, req: Request) {
    && op.Append? && op.symbol == req.symbol && req.start <= op.body.ts <= req.end && op.body.kind != 0xFF
    && (req.kind == None || req.kind == Some(op.body.kind))
  }

  ghost function Asking(ops: seq<Op>, req: Request): nat {
    if ops == [] then 0 else Asking(ops[..|ops| - 1], req) + if Asked(ops[|ops| - 1], req) then 1 else 0
  }

  ghost function Appends(ops: seq<Op>): nat {
    if ops == [] then 0 else Appends(ops[..|ops| - 1]) + if ops[|ops| - 1].Append? then 1 else 0
  }

  /** The event is what this append wrote: the caller's fields, under the next sequence id and the symbol's id. */
  ghost predicate Wrote(e: Event, ops: seq<Op>, i: nat) {
    && i < |ops| && ops[i].Append?
    && e == ops[i].body.(sym := e.sym, seqId := e.seqId) && e.seqId == Appends(ops[..i]) + 1
  }

  ghost predicate IsAmong(all: seq<Event>, ops: seq<Op>, i: nat) {
    exists k :: 0 <= k < |all| && Wrote(all[k], ops, i)
  }

  ghost predicate WasAsked(e: Event, ops: seq<Op>, req: Request) {
    exists i: nat :: i < |ops| && Asked(ops[i], req) && Wrote(e, ops, i)
  }

  /** These are the events of the appends asked for: each once, nothing else, under one symbol id. */
  ghost predicate Returned(all: seq<Event>, ops: seq<Op>, req: Request) {
    && |all| == Asking(ops, req)
    && (forall i: nat :: i < |ops| && Asked(ops[i], req) ==> IsAmong(all, ops, i))
    && (forall k :: 0 <= k < |all| ==> WasAsked(all[k], ops, req))
    && (forall j, k :: 0 <= j < k < |all| ==> all[j] != all[k] && all[j].sym == all[k].sym)
  }

  // ---- the log and the operations ----

  lemma {:induction false} LogLength(ops: seq<Op>, target: nat)
    ensures |Log(ops, target)| == Appends(ops)
  {
    if ops != [] {
      LogLength(ops[..|ops| - 1], target);
      hide Run;
      hide Stamped;
    }
  }

  /** What is in the log stays there. */
  lemma {:induction false} LogPrefix(ops: seq<Op>, n: nat, target: nat)
    requires n <= |ops|
    ensures Log(ops[..n], target) <= Log(ops, target)
    decreases |ops|
  {
    if n < |ops| {
      LogPrefix(ops[..|ops| - 1], n, target);
      assert ops[..|ops| - 1][..n] == ops[..n];
      hide Run;
      hide Stamped;
    } else {
      assert ops[..n] == ops;
    }
  }

  /** The append's event stands in the log behind those of the appends before it. */
  lemma {:induction false} LogAt(ops: seq<Op>, i: nat, target: nat)
    requires AppendOnly(ops) && InWidth(Run(ops, target), Log(ops, target)) && i < |ops| && ops[i].Append?
    ensures var k, log := Appends(ops[..i]), Log(ops, target);
            && k < |log| && log[k].symbol == ops[i].symbol && Wrote(log[k].event, ops, i)
            && log[k].event == ops[i].body.(sym := log[k].event.sym, seqId := log[k].event.seqId)
  {
    var k := Appends(ops[..i]);
    LogLength(ops[..i], target);
    LogPrefix(ops, i + 1, target);
    RunInv(ops, target);
    assert ops[..i + 1][..i] == ops[..i];
    var short := Log(ops[..i + 1], target);
    assert short
      == Log(ops[..i], target) + [Named(ops[i].symbol, Stamped(Run(ops[..i], target), ops[i].symbol, ops[i].body))];
    EntryFine(Run(ops, target), Log(ops, target), k);
    hide Run;
    hide Log;
    hide Inv;
    assert Log(ops, target)[k] == short[k];
  }

  lemma {:induction false} EntryFine(s: State, log: seq<Named>, k: nat)
    requires Inv(s, log) && k < |log|
    ensures log[k].event.seqId == k + 1
    ensures log[k].symbol in s.symbols && log[k].event.sym == s.symbols[log[k].symbol]
  {
    hide StateSorted;
    hide SymbolsFine;
    hide Bag;
  }

  /** Every entry of the log was written by an append. */
  lemma {:induction false} WriterOf(ops: seq<Op>, k: nat) returns (i: nat)
    requires k < Appends(ops)
    ensures i < |ops| && ops[i].Append? && Appends(ops[..i]) == k
  {
    var n := |ops| - 1;
    if k < Appends(ops[..n]) {
      i := WriterOf(ops[..n], k);
      assert ops[..n][..i] == ops[..i];
    } else {
      i := n;
    }
  }

  // ---- what the log promises a query ----

  ghost predicate Wants(x: Named, req: Request) {
    && x.symbol == req.symbol && req.start <= x.event.ts <= req.end && x.event.kind != 0xFF
    && (req.kind == None || req.kind == Some(x.event.kind))
  }

  lemma {:induction false} ExpectedStep(log: seq<Named>, req: Request)
    requires log != []
    ensures Expected(log, req) == (if Wants(log[0], req) then [log[0].event] else []) + Expected(log[1..], req)
  {
    var rest := Expected(log[1..], req);
    assert Wants(log[0], req) <==>
      log[0].symbol == req.symbol && req.start <= log[0].event.ts <= req.end && Wanted(log[0].event, req);
  }

  lemma {:induction false} ExpectedSnoc(log: seq<Named>, x: Named, req: Request)
    ensures Expected(log + [x], req) == Expected(log, req) + if Wants(x, req) then [x.event] else []
  {
    if log == [] {
      assert [x][1..] == [] && [] + [x] == [x];
      ExpectedStep([x], req);
    } else {
      ExpectedStep(log + [x], req);
      ExpectedStep(log, req);
      hide *;
      ExpectedSnoc(log[1..], x, req);
      assert (log + [x])[1..] == log[1..] + [x] && (log + [x])[0] == log[0];
    }
  }

  lemma {:induction false} ExpectedMember(log: seq<Named>, req: Request, e: Event)
    ensures e in Expected(log, req) <==> exists k :: 0 <= k < |log| && log[k].event == e && Wants(log[k], req)
  {
    if log != [] {
      var n := |log| - 1;
      assert log == log[..n] + [log[n]];
      ExpectedSnoc(log[..n], log[n], req);
      ExpectedMember(log[..n], req, e);
      hide Expected;
      hide Wants;
      if k :| 0 <= k < |log| && log[k].event == e && Wants(log[k], req) {
        assert k < n ==> log[..n][k] == log[k];
      }
    }
  }

  lemma {:induction false} ExpectedCount(ops: seq<Op>, target: nat, req: Request)
    requires AppendOnly(ops)
    ensures |Expected(Log(ops, target), req)| == Asking(ops, req)
  {
    if ops != [] {
      var n := |ops| - 1;
      ExpectedCount(ops[..n], target, req);
      hide Expected;
      hide Run;
      if ops[n].Append? {
        ExpectedSnoc(Log(ops[..n], target),
          Named(ops[n].symbol, Stamped(Run(ops[..n], target), ops[n].symbol, ops[n].body)), req);
      } else {
        assert Log(ops, target) == Log(ops[..n], target);
      }
    }
  }

  /** After any appends, flushes and compactions, what a query would return without a limit are exactly the events
      of the appends it asks for, each once. */
  lemma {:induction false} AppendsReturned(ops: seq<Op>, target: nat, req: Request)
    requires AppendOnly(ops) && InWidth(Run(ops, target), Log(ops, target))
    ensures Returned(Unlimited(Run(ops, target), req), ops, req)
  {
    var s, log, all := Run(ops, target), Log(ops, target), Unlimited(Run(ops, target), req);
    AppendedExactlyOnce(ops, target, req);
    ExpectedCount(ops, target, req);
    RunInv(ops, target);
    hide *;
    OnceParts(all, Expected(log, req));
    forall i: nat | i < |ops| && Asked(ops[i], req) ensures IsAmong(all, ops, i) {
      AskedIsAmong(ops, target, req, i, all);
    }
    forall k | 0 <= k < |all| ensures WasAsked(all[k], ops, req) && InSymbol(all[k], s, req) {
      RowWasAsked(ops, target, req, all[k]);
    }
    IsReturned(all, ops, req, s);
  }

  ghost predicate InSymbol(e: Event, s: State, req: Request) {
    req.symbol in s.symbols && e.sym == s.symbols[req.symbol]
  }

  lemma {:induction false} OnceParts(all: seq<Event>, expected: seq<Event>)
    requires ExactlyOnce(all, expected)
    ensures |all| == |expected| && (forall e :: e in all <==> e in expected)
    ensures forall j, k :: 0 <= j < k < |all| ==> all[j] != all[k]
  {
    assert |multiset(all)| == |multiset(expected)|;
    forall e ensures e in all <==> e in expected {
      assert e in all <==> e in multiset(all);
      assert e in expected <==> e in multiset(expected);
    }
  }

  lemma {:induction false} AskedIsAmong(ops: seq<Op>, target: nat, req: Request, i: nat, all: seq<Event>)
    requires AppendOnly(ops) && InWidth(Run(ops, target), Log(ops, target)) && i < |ops| && Asked(ops[i], req)
    requires forall e :: e in Expected(Log(ops, target), req) ==> e in all
    ensures IsAmong(all, ops, i)
  {
    var log, k := Log(ops, target), Appends(ops[..i]);
    LogAt(ops, i, target);
    ExpectedMember(log, req, log[k].event);
    assert Wants(log[k], req);
    hide Run;
    hide Log;
    hide Expected;
    hide Wrote;
    var j :| 0 <= j < |all| && all[j] == log[k].event;
  }

  lemma {:induction false} RowWasAsked(ops: seq<Op>, target: nat, req: Request, e: Event)
    requires AppendOnly(ops) && InWidth(Run(ops, target), Log(ops, target)) && e in Expected(Log(ops, target), req)
    ensures WasAsked(e, ops, req) && InSymbol(e, Run(ops, target), req)
  {
    var log := Log(ops, target);
    ExpectedMember(log, req, e);
    RunInv(ops, target);
    LogLength(ops, target);
    var k :| 0 <= k < |log| && log[k].event == e && Wants(log[k], req);
    hide Run;
    hide Log;
    hide Expected;
    var i := WriterOf(ops, k);
    LogAt(ops, i, target);
    EntryFine(Run(ops, target), log, k);
    hide Wrote;
    hide Inv;
    assert Asked(ops[i], req);
  }

  lemma {:induction false} IsReturned(all: seq<Event>, ops: seq<Op>, req: Request, s: State)
    requires |all| == Asking(ops, req)
    requires forall i: nat :: i < |ops| && Asked(ops[i], req) ==> IsAmong(all, ops, i)
    requires forall k :: 0 <= k < |all| ==> WasAsked(all[k], ops, req) && InSymbol(all[k], s, req)
    requires forall j, k :: 0 <= j < k < |all| ==> all[j] != all[k]
    ensures Returned(all, ops, req)
  {
    hide Asking;
    hide Asked;
    hide IsAmong;
    hide WasAsked;
  }

  /** The rows are the first of these events, as many as the limit allows. */
  ghost predicate AnswersAppends(rows: seq<Event>, ops: seq<Op>, req: Request) {
    exists all :: Returned(all, ops, req) && Limited(|rows|, |all|, req) && rows <= all
  }

  lemma {:induction false} RowsAnswer(rows: seq<Event>, ops: seq<Op>, target: nat, req: Request)
    requires AppendOnly(ops) && InWidth(Run(ops, target), Log(ops, target))
    requires rows == Answer(Run(ops, target), req)
    ensures AnswersAppends(rows, ops, req)
  {
    AppendsReturned(ops, target, req);
    AnswerLimited(Run(ops, target), req);
    hide *;
    AnswersWith(rows, Unlimited(Run(ops, target), req), ops, req);
  }

  lemma {:induction false} AnswerLimited(s: State, req: Request)
    ensures Limited(|Answer(s, req)|, |Unlimited(s, req)|, req) && Answer(s, req) <= Unlimited(s, req)
  {
    hide Select;
    hide Join;
    hide Sources;
  }

  lemma {:induction false} AnswersWith(rows: seq<Event>, all: seq<Event>, ops: seq<Op>, req: Request)
    requires Returned(all, ops, req) && Limited(|rows|, |all|, req) && rows <= all
    ensures AnswersAppends(rows, ops, req)
  {
    hide Returned;
    hide Limited;
  }

  /** Trades, quotes, adds, modifies and cancels, the types 0 to 4, are returned when they are asked for and the limit
      leaves room for all. */
  lemma {:induction false} TypesAreReturned(rows: seq<Event>, ops: seq<Op>, req: Request, i: nat)
    requires AnswersAppends(rows, ops, req) && Asking(ops, req) <= if req.limit > 0 then req.limit else 1000
    requires i < |ops| && ops[i].Append? && ops[i].symbol == req.symbol && req.start <= ops[i].body.ts <= req.end
    requires ops[i].body.kind <= 4 && (req.kind == None || req.kind == Some(ops[i].body.kind))
    ensures IsAmong(rows, ops, i)
  {
    assert Asked(ops[i], req);
    var all :| Returned(all, ops, req) && Limited(|rows|, |all|, req) && rows <= all;
    assert rows == all;
    hide Asking;
    hide Wrote;
    hide WasAsked;
  }
}
