/** The collector of a query: filtering, the limit, and the order of the sources. */
module DBQueries {
  import opened Bytes
  import opened Core
  import opened DBModel
  import opened TableFormat
  import E = Events

  datatype Rows = Rows(rows: seq<Event>, done: bool)

  /** `filter_and_collect`. */
  function CollectRow(req: Request): (Rows, Event) -> E.Turn<Rows> {
    (s: Rows, e: Event) =>
      if s.done then E.Turn(s, false)
      else if e.kind == TOMBSTONE then E.Turn(s, true)
      else if req.kind.Some? && e.kind != req.kind.value then E.Turn(s, true)
      else
        var rows := s.rows + [e];
        if |rows| >= Limit(req) then E.Turn(Rows(rows, true), false) else E.Turn(Rows(rows, false), true)
  }

  /** The collector's state once it has been offered these rows. */
  function SoFar(all: seq<Event>, req: Request): Rows {
    Rows(Take(all, Limit(req)), |all| >= Limit(req))
  }

  lemma {:induction false} CollectOne(e: Event, req: Request, all: seq<Event>)
    requires |all| < Limit(req)
    ensures CollectRow(req)(SoFar(all, req), e)
         == if Wanted(e, req) then E.Turn(SoFar(all + [e], req), |all| + 1 < Limit(req))
            else E.Turn(SoFar(all, req), true)
  {
  }

  /** Scanning one more source collects what it selects, up to the limit. */
  lemma {:induction false} CollectSource(es: seq<Event>, sym: u32, req: Request, all: seq<Event>)
    requires |all| < Limit(req)
    ensures E.Feed(E.InRange(es, Lo(sym, req), Hi(sym, req)), SoFar(all, req), CollectRow(req)).state
         == SoFar(all + Select(es, sym, req), req)
    decreases |es|
  {
    hide E.Within;
    hide Matches;
    hide Wanted;
    hide SoFar;
    hide CollectRow;
    hide Limit;
    if es == [] {
      assert all + [] == all;
    } else {
      var e, rest := es[0], es[1..];
      RangeIsSymbolAndTime(e, sym, req);
      CollectOne(e, req, all);
      if Matches(e, sym, req) {
        assert all + ([e] + Select(rest, sym, req)) == (all + [e]) + Select(rest, sym, req);
        if |all| + 1 < Limit(req) {
          CollectSource(rest, sym, req, all + [e]);
        } else {
          FullIgnores(all + [e], Select(rest, sym, req), req);
        }
      } else {
        assert [] + Select(rest, sym, req) == Select(rest, sym, req);
        CollectSource(rest, sym, req, all);
      }
    }
  }

  lemma {:induction false} FullIgnores(all: seq<Event>, more: seq<Event>, req: Request)
    requires |all| >= Limit(req)
    ensures SoFar(all + more, req) == SoFar(all, req)
  {
  }

  /** What all sources before i select. */
  function Picked(sources: seq<seq<Event>>, i: nat, sym: u32, req: Request): seq<Event>
    requires i <= |sources|
  {
    Select(Join(sources[..i]), sym, req)
  }

  lemma {:induction false} PickNext(sources: seq<seq<Event>>, i: nat, sym: u32, req: Request)
    requires i < |sources|
    ensures var all := Picked(sources, i, sym, req);
            && Picked(sources, i + 1, sym, req) == all + Select(sources[i], sym, req)
            && (if SoFar(all, req).done then SoFar(Picked(sources, i + 1, sym, req), req) == SoFar(all, req)
                else E.Feed(E.InRange(sources[i], Lo(sym, req), Hi(sym, req)), SoFar(all, req), CollectRow(req)).state
                     == SoFar(Picked(sources, i + 1, sym, req), req))
  {
    var all := Picked(sources, i, sym, req);
    assert sources[..i + 1] == sources[..i] + [sources[i]];
    JoinConcat(sources[..i], [sources[i]]);
    BagOfOne(sources[i]);
    SelectConcat(Join(sources[..i]), sources[i], sym, req);
    if SoFar(all, req).done {
      FullIgnores(all, Select(sources[i], sym, req), req);
    } else {
      CollectSource(sources[i], sym, req, all);
    }
  }

  /** A table whose key bounds miss the range holds nothing in it. */
  lemma {:induction false} SkipSafe(r: Recipe, es: seq<Event>, lo: Key, hi: Key)
    requires E.Sorted(es) && (Less(hi, MetaOf(r, es).minKey) || Less(MetaOf(r, es).maxKey, lo))
    ensures E.InRange(es, lo, hi) == []
  {
    hide BlockBytes;
    hide Pack;
    forall i | 0 <= i < |es| ensures !E.Within(es[i], lo, hi) {
      assert i > 0 ==> Less(KeyOf(es[0]), KeyOf(es[i]));
      assert i < |es| - 1 ==> Less(KeyOf(es[i]), KeyOf(es[|es| - 1]));
    }
    E.InRangeNone(es, lo, hi);
  }

  lemma {:induction false} NothingOffered(st: Rows, req: Request)
    ensures E.Feed([], st, CollectRow(req)).state == st
  {
  }

  lemma {:induction false} RangeNotPoint(sym: u32, req: Request)
    ensures Lo(sym, req) != Hi(sym, req)
  {
  }

  lemma {:induction false} DoneStays(sources: seq<seq<Event>>, i: nat, sym: u32, req: Request)
    requires i <= |sources| && SoFar(Picked(sources, i, sym, req), req).done
    ensures SoFar(Picked(sources, |sources|, sym, req), req) == SoFar(Picked(sources, i, sym, req), req)
    decreases |sources| - i
  {
    if i < |sources| {
      PickNext(sources, i, sym, req);
      DoneStays(sources, i + 1, sym, req);
    }
  }

  lemma {:induction false} NonePicked(sources: seq<seq<Event>>, sym: u32, req: Request)
    ensures SoFar(Picked(sources, 0, sym, req), req) == Rows([], false)
  {
  }

  lemma {:induction false} UnknownSymbol(s: State, req: Request)
    requires req.symbol !in s.symbols
    ensures Answer(s, req) == []
  {
  }

  lemma {:induction false} AnswerIsPicked(s: State, sources: seq<seq<Event>>, sym: u32, req: Request)
    requires sources == Sources(s) && req.symbol in s.symbols && s.symbols[req.symbol] == sym
    ensures SoFar(Picked(sources, |sources|, sym, req), req).rows == Answer(s, req)
  {
    assert sources[..|sources|] == sources;
  }
}
