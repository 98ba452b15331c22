/** Opening the files of a crashed or closed database: the log is replayed whole, although tables already hold what was
    flushed, and table sequences start again at 1. */
module DBReopens {
  import opened Bytes
  import opened Core
  import opened Compactions
  import opened DBAnswers
  import opened DBModel
  import opened DBRuns
  import opened Paths
  import opened TableFormat
  import D = DBDeletes
  import E = Events
  import L = Wal
  import N = DBNames
  import O = DBs
  import P = DBOpens
  import R = CompactionRuns
  import Rec = Recoveries
  import T = DBTables
  import W = WalRuns

  // ---- what is left of the log ----

  /** How many records of the last segment a cut at this byte leaves whole. */
  function Kept(h: W.Ledger, cut: nat): nat
    requires h.segments != []
  {
    if cut / L.RECORD < |W.Last(h)| then cut / L.RECORD else |W.Last(h)|
  }

  lemma {:induction false} LastOfJoin(h: W.Ledger, k: nat)
    requires h.segments != [] && k <= |W.Last(h)|
    ensures |W.Last(h)| <= |Join(h.segments)|
    ensures Join(W.SetLast(h, W.Last(h)[..k])) == Join(h.segments)[..|Join(h.segments)| - (|W.Last(h)| - k)]
  {
    var n := |h.segments| - 1;
    assert W.SetLast(h, W.Last(h)[..k])[..n] == h.segments[..n];
  }

  /** After a crash that cuts the last segment at any byte, replay returns everything logged, up to the first record
      that the cut reaches. */
  lemma {:induction false} CrashKeepsPrefix(p: W.Process, h: W.Ledger, cut: nat)
    requires W.Matches(p, h)
    ensures h.segments != [] && |W.Last(h)| <= |Join(h.segments)|
    ensures Rec.EventsOf(W.Replay(W.CutLast(W.DirOf(p), cut)).records)
         == Join(h.segments)[..|Join(h.segments)| - (|W.Last(h)| - Kept(h, cut))]
  {
    assert h.segments != [];
    hide *;
    var h' := W.LedgerStep(h, W.Crash(cut), 0);
    W.CrashMatches(p, h, cut, 0);
    W.ReplayIsLedger(W.CutLast(W.DirOf(p), cut), h');
    P.SurvivorsJoin(h'.segments);
    LastOfJoin(h, Kept(h, cut));
    CutLedger(h, cut);
  }

  lemma {:induction false} CutLedger(h: W.Ledger, cut: nat)
    requires h.segments != []
    ensures W.LedgerStep(h, W.Crash(cut), 0).segments == W.SetLast(h, W.Last(h)[..Kept(h, cut)])
  {
    var es := W.Last(h);
    if cut >= L.RECORD * |es| {
      assert es[..|es|] == es;
    }
  }

  /** What a crash of the database object leaves of its log is a prefix of what was written to it. */
  lemma {:induction false} SurvivingLog(db: O.DB, cut: nat)
    requires db.Usable() && db.Tables()
    ensures Rec.EventsOf(W.Replay(W.CutLast(db.wal.disk.files, cut)).records) <= db.Model().wal
  {
    db.UsableParts();
    JournalParts(db);
    hide *;
    CrashKeepsPrefix(W.Up(db.wal.State()), db.ledger, cut);
    db.ModelIs();
  }

  lemma {:induction false} JournalParts(db: O.DB)
    requires db.Journal()
    ensures W.Matches(W.Up(db.wal.State()), db.ledger) && db.Journaled() == Join(db.ledger.segments)
    ensures W.DirOf(W.Up(db.wal.State())) == db.wal.disk.files
  {
    hide W.Matches;
  }

  /** The log holds every write of the run, in order. */
  lemma {:induction false} WalIsWrites(ops: seq<Op>, target: nat)
    ensures Run(ops, target).wal == D.Writes(ops, target)
  {
    if ops != [] {
      WalIsWrites(ops[..|ops| - 1], target);
      WalGrows(Run(ops[..|ops| - 1], target), ops[|ops| - 1], target);
      hide Step;
      hide Stamped;
      hide TombstoneOf;
    }
  }

  lemma {:induction false} WalGrows(s: State, op: Op, target: nat)
    ensures Step(s, op, target).wal == s.wal +
              match op
              case Append(symbol, body, _) => [Stamped(s, symbol, body)]
              case Remove(symbol, ts, seqId, _) => [TombstoneOf(s, symbol, ts, seqId)]
              case _ => []
  {
    hide E.Upsert;
    hide NewTables;
    hide SortBySeq;
    hide Stamped;
    hide TombstoneOf;
  }

  lemma {:induction false} WalIsLog(ops: seq<Op>, target: nat)
    requires AppendOnly(ops)
    ensures Run(ops, target).wal == Logged(Log(ops, target))
  {
    if ops != [] {
      var n := |ops| - 1;
      WalIsLog(ops[..n], target);
      WalGrows(Run(ops[..n], target), ops[n], target);
      assert !ops[n].Remove?;
      hide Step;
      hide Stamped;
      hide TombstoneOf;
    }
  }

  // ---- the reopened object ----

  lemma {:induction false} LeftBehind(db: O.DB)
    requires db.Tables()
    ensures |db.levels| == 4
    ensures P.Left(db.disk.files, db.Model(), db.levels[0], db.levels[1], db.stored, db.spent)
    ensures db.Model().symbols == db.symbols && db.Model().nextId == db.nextId
    ensures db.Model().l0 == [] ==> db.levels[0] == []
  {
    hide T.LevelFine;
    hide T.NamesFine;
    hide T.Tidy;
    hide T.AllFit;
    assert db.levels == [db.levels[0], db.levels[1], [], []];
  }

  lemma {:induction false} CrashLeaves(db: O.DB, cut: nat)
    requires db.Journal()
    ensures db.ledger.segments != []
    ensures W.Matches(W.Down(W.CutLast(db.wal.disk.files, cut)), W.LedgerStep(db.ledger, W.Crash(cut), 0))
  {
    hide W.CutLast;
    W.CrashMatches(W.Up(db.wal.State()), db.ledger, cut, 0);
    hide W.Matches;
  }

  /** Opening what a crash leaves of a database object. Its memory is gone; its tables are found in the directories, and
      of its log a prefix is replayed. When level 0 lists nothing, the new object flushes under unused names. */
  method Reopen(db: O.DB, dir: L.Directory, cut: nat, cacheBytes: nat, blockBytes: nat, tableBytes: nat,
      segmentBytes: nat, k: u32, m: u32)
      returns (next: O.DB, ghost kept: seq<Event>, ghost d0: seq<Input>, ghost d1: seq<Input>)
    requires db.Usable() && db.Tables() && blockBytes < TWO_32 && R.PerFile(tableBytes) < TWO_32 && m <= TWO_32 - 8
    requires dir.files == W.CutLast(db.wal.disk.files, cut)
    modifies dir
    ensures fresh(next) && fresh(next.cache) && next.Usable() && next.Tables() && next.disk == db.disk
            && next.wal.disk == dir
    ensures kept <= old(db.Model()).wal && Found(old(db.Model()), d0, d1)
    ensures next.Model() == Reopened(old(db.Model()), kept, d0, d1)
    ensures old(db.Model()).l0 == [] ==> next.Valid()
  {
    hide *;
    ghost var s := db.Model();
    db.UsableParts();
    LeftBehind(db);
    CrashLeaves(db, cut);
    SurvivingLog(db, cut);
    next := new O.DB.Open(db.disk, dir, db.symbols, db.nextId, cacheBytes, blockBytes, tableBytes, segmentBytes, k, m,
      s, db.levels[0], db.levels[1], db.stored, db.spent, W.LedgerStep(db.ledger, W.Crash(cut), 0));
    next.UsableParts();
    kept := Rec.EventsOf(W.Replay(old(dir.files)).records);
    d0, d1 :| Found(s, d0, d1) && next.Model() == Reopened(s, kept, d0, d1);
  }

  // ---- what it shows ----

  lemma {:induction false} PermutedBag(d: seq<Input>, l: seq<Input>)
    requires multiset(d) == multiset(l)
    ensures Bag(Runs(d)) == Bag(Runs(l))
  {
    if l == [] {
      assert |multiset(d)| == 0;
    } else {
      var n := |l| - 1;
      var x := l[n];
      assert x in multiset(l);
      var i :| 0 <= i < |d| && d[i] == x;
      var a, b := d[..i], d[i + 1..];
      assert d == a + [x] + b && l == l[..n] + [x];
      P.OneLess(a, x, b, l[..n]);
      PermutedBag(a + b, l[..n]);
      BagAround(a, x, b);
      BagSnoc(l[..n], x);
      hide Bag;
    }
  }

  lemma {:induction false} BagAround(a: seq<Input>, x: Input, b: seq<Input>)
    ensures Bag(Runs(a + [x] + b)) == Bag(Runs(a + b)) + multiset(x.events)
  {
    RunsConcat(a + [x], b);
    RunsConcat(a, b);
    BagConcat(Runs(a + [x]), Runs(b));
    BagConcat(Runs(a), Runs(b));
    BagSnoc(a, x);
  }

  /** A reopened database shows what its tables hold and, once more, what the log replays. */
  lemma {:induction false} ReopenedShows(s: State, kept: seq<Event>, d0: seq<Input>, d1: seq<Input>, req: Request,
      e: Event)
    requires Found(s, d0, d1) && req.symbol in s.symbols
    ensures var t, sym := Reopened(s, kept, d0, d1), s.symbols[req.symbol];
            multiset(Unlimited(t, req))[e]
            == if Matches(e, sym, req)
               then Bag(Runs(s.l0))[e] + Bag(Runs(s.l1))[e] + multiset(Overlay([], kept))[e]
               else 0
  {
    var t, sym := Reopened(s, kept, d0, d1), s.symbols[req.symbol];
    ReopenedBag(s, kept, d0, d1);
    assert t.symbols == s.symbols;
    hide Reopened;
    SelectCounts(Join(Sources(t)), sym, req, e);
    hide *;
    UnlimitedIs(t, req);
    BagIs(t);
  }

  lemma {:induction false} UnlimitedIs(t: State, req: Request)
    requires req.symbol in t.symbols
    ensures Unlimited(t, req) == Select(Join(Sources(t)), t.symbols[req.symbol], req)
  {
  }

  lemma {:induction false} BagIs(t: State)
    ensures Bag(Sources(t)) == multiset(Join(Sources(t)))
  {
  }

  lemma {:induction false} ReopenedBag(s: State, kept: seq<Event>, d0: seq<Input>, d1: seq<Input>)
    requires Found(s, d0, d1)
    ensures Bag(Sources(Reopened(s, kept, d0, d1))) == multiset(Overlay([], kept)) + Bag(Runs(s.l0)) + Bag(Runs(s.l1))
  {
    var t := Reopened(s, kept, d0, d1);
    assert t.active == Overlay([], kept) && t.imms == [] && t.l0 == SortBySeq(d0) && t.l1 == SortBySeq(d1);
    assert Bag(t.imms) == multiset{};
    PermutedBag(d0, s.l0);
    PermutedBag(d1, s.l1);
    hide *;
    SourcesBag(t);
    SortBySeqBag(d0);
    SortBySeqBag(d1);
  }

  lemma {:induction false} OverlayBag(w: seq<Event>)
    requires DistinctKeys(w)
    ensures multiset(Overlay([], w)) == multiset(w)
    ensures forall e :: e in Overlay([], w) ==> e in w
  {
    if w != [] {
      var n := |w| - 1;
      OverlayBag(w[..n]);
      forall d | d in Overlay([], w[..n]) ensures KeyOf(d) != KeyOf(w[n]) {
        assert d in w[..n];
        var i :| 0 <= i < n && w[i] == d;
      }
      UpsertBag(Overlay([], w[..n]), w[n]);
      assert w == w[..n] + [w[n]];
      forall e | e in Overlay([], w) ensures e in w {
        E.UpsertMember(Overlay([], w[..n]), w[n], e);
      }
    }
  }

  /** Once for a table that holds the event and once for the surviving log. */
  ghost function TimesReturned(s: State, kept: seq<Event>, req: Request, e: Event): nat
    requires req.symbol in s.symbols
  {
    if Matches(e, s.symbols[req.symbol], req)
    then (if D.InTables(s.l0, e) || D.InTables(s.l1, e) then 1 else 0) + (if e in kept then 1 else 0)
    else 0
  }

  /** After an append-only run without name collisions and a crash that leaves any prefix of the log: an event that
      matches is shown once for being in a table and once for being in that prefix. What was in neither is lost. */
  lemma {:induction false} CrashReturns(ops: seq<Op>, target: nat, kept: seq<Event>, d0: seq<Input>, d1: seq<Input>,
      req: Request, e: Event)
    requires AppendOnly(ops) && InWidth(Run(ops, target), Log(ops, target)) && N.SoundRun(ops, target)
    requires var s := Run(ops, target); kept <= s.wal && Found(s, d0, d1) && req.symbol in s.symbols
    ensures var s := Run(ops, target);
            multiset(Unlimited(Reopened(s, kept, d0, d1), req))[e] == TimesReturned(s, kept, req, e)
  {
    var s, log := Run(ops, target), Log(ops, target);
    RunInv(ops, target);
    LogDistinct(s, log);
    WalIsLog(ops, target);
    ReopenedShows(s, kept, d0, d1, req, e);
    InvBag(s, log);
    hide *;
    KeptOnce(kept, Logged(log), e);
    TablesOnce(s, Logged(log), e);
  }

  lemma {:induction false} InvBag(s: State, log: seq<Named>)
    requires Inv(s, log)
    ensures Bag(Sources(s)) == multiset(Logged(log))
  {
  }

  lemma {:induction false} KeptOnce(kept: seq<Event>, w: seq<Event>, e: Event)
    requires kept <= w && DistinctKeys(w)
    ensures multiset(Overlay([], kept))[e] == if e in kept then 1 else 0
  {
    OverlayBag(kept);
    DistinctCounts(kept, e);
  }

  lemma {:induction false} TablesOnce(s: State, w: seq<Event>, e: Event)
    requires Bag(Sources(s)) == multiset(w) && DistinctKeys(w)
    ensures Bag(Runs(s.l0))[e] + Bag(Runs(s.l1))[e] == if D.InTables(s.l0, e) || D.InTables(s.l1, e) then 1 else 0
  {
    SourcesBag(s);
    DistinctCounts(w, e);
    D.InTablesBag(s.l0, e);
    D.InTablesBag(s.l1, e);
    hide Sources;
    hide Runs;
    hide D.InTables;
  }

  /** A crash of an object that performed such a run, opening what it leaves, and a query: the rows are the first ones
      among the matching events, each as often as it is in a table or in the log that survived. */
  method ReopenAndQuery(db: O.DB, ghost ops: seq<Op>, dir: L.Directory, cut: nat, cacheBytes: nat, blockBytes: nat,
                        tableBytes: nat, segmentBytes: nat, k: u32, m: u32, req: Request)
      returns (rows: seq<Event>, ghost kept: seq<Event>, ghost all: seq<Event>)
    requires db.Usable() && db.Tables() && blockBytes < TWO_32 && R.PerFile(tableBytes) < TWO_32 && m <= TWO_32 - 8
    requires var target := db.sstTarget;
             && db.Model() == Run(ops, target) && AppendOnly(ops) && InWidth(Run(ops, target), Log(ops, target))
             && N.SoundRun(ops, target) && req.symbol in Run(ops, target).symbols
    requires dir.files == W.CutLast(db.wal.disk.files, cut)
    modifies dir
    ensures rows <= all && Limited(|rows|, |all|, req) && kept <= Run(ops, db.sstTarget).wal
    ensures forall e :: multiset(all)[e] == TimesReturned(Run(ops, db.sstTarget), kept, req, e)
  {
    hide *;
    ghost var target, s, d0, d1 := db.sstTarget, Run(ops, db.sstTarget), [], [];
    var next;
    next, kept, d0, d1 := Reopen(db, dir, cut, cacheBytes, blockBytes, tableBytes, segmentBytes, k, m);
    rows := next.Query(req);
    all := Unlimited(Reopened(s, kept, d0, d1), req);
    AnswerLimited(Reopened(s, kept, d0, d1), req);
    forall e ensures multiset(all)[e] == TimesReturned(s, kept, req, e) {
      CrashReturns(ops, target, kept, d0, d1, req, e);
    }
  }

  /** Closing flushes everything and opening replays everything: each matching event then comes back exactly twice. */
  lemma {:induction false} ReopenReturnsTwice(ops: seq<Op>, target: nat, d0: seq<Input>, d1: seq<Input>, req: Request)
    requires AppendOnly(ops) && InWidth(Run(ops, target), Log(ops, target)) && N.SoundRun(ops, target)
    requires Found(Flushed(Run(ops, target)), d0, d1)
    ensures var s, expected := Flushed(Run(ops, target)), Expected(Log(ops, target), req);
            multiset(Unlimited(Reopened(s, s.wal, d0, d1), req)) == multiset(expected) + multiset(expected)
  {
    var s, log := Flushed(Run(ops, target)), Log(ops, target);
    RunInv(ops, target);
    FlushStep(Run(ops, target), log);
    WalIsLog(ops, target);
    LogDistinct(s, log);
    ExpectedIsSelect(s, log, req);
    InvBag(s, log);
    FlushedParts(Run(ops, target));
    hide Run;
    hide Log;
    hide Reopened;
    hide Inv;
    hide Flushed;
    if req.symbol in s.symbols {
      forall e ensures multiset(Unlimited(Reopened(s, s.wal, d0, d1), req))[e] == 2 * multiset(Expected(log, req))[e] {
        ReopenedShows(s, s.wal, d0, d1, req, e);
        BothHold(s, Logged(log), e);
        SelectCounts(Logged(log), s.symbols[req.symbol], req, e);
      }
    } else {
      NothingShown(s, d0, d1, req);
    }
  }

  lemma {:induction false} FlushedParts(s: State)
    ensures var t := Flushed(s); t.active == [] && t.imms == [] && t.wal == s.wal
  {
    hide Numbered;
    hide Pending;
  }

  lemma {:induction false} NothingShown(s: State, d0: seq<Input>, d1: seq<Input>, req: Request)
    requires req.symbol !in s.symbols
    ensures Unlimited(Reopened(s, s.wal, d0, d1), req) == []
  {
    hide Overlay;
    hide SortBySeq;
  }

  lemma {:induction false} BothHold(s: State, w: seq<Event>, e: Event)
    requires s.active == [] && s.imms == [] && Bag(Sources(s)) == multiset(w) && DistinctKeys(w)
    ensures Bag(Runs(s.l0))[e] + Bag(Runs(s.l1))[e] + multiset(Overlay([], w))[e] == 2 * multiset(w)[e]
  {
    SourcesBag(s);
    OverlayBag(w);
    hide Sources;
    hide Runs;
    hide Overlay;
  }

  // ---- names after reopening ----

  /** The name of the k-th table that the next flush writes. */
  function NextFlush(t: State, k: nat): string {
    FlushPath((t.sstSeq + k) % TWO_64)
  }

  /** One of the next flushes writes to the file of a table that level 0 lists. */
  ghost predicate Overwrites(t: State) {
    exists i, k: nat :: 0 <= i < |t.l0| && k < |Pending(t)| && FlushPath(t.l0[i].sequence) == NextFlush(t, k)
  }

  /** With the table counter back at 1, the next flush overwrites a listed table exactly when level 0 lists a sequence
      among the first so many as there are memtables to flush. */
  lemma {:induction false} OverwritesIff(t: State)
    requires t.sstSeq == 1 && |Pending(t)| < TWO_64 - 1
    ensures Overwrites(t) <==> exists i :: 0 <= i < |t.l0| && 1 <= t.l0[i].sequence <= |Pending(t)|
  {
    hide FlushPath;
    hide Pending;
    if i, k: nat :| 0 <= i < |t.l0| && k < |Pending(t)| && FlushPath(t.l0[i].sequence) == NextFlush(t, k) {
      SequenceBack(k);
      FlushPathInjective(t.l0[i].sequence, 1 + k);
      assert 1 <= t.l0[i].sequence <= |Pending(t)|;
    }
    if i :| 0 <= i < |t.l0| && 1 <= t.l0[i].sequence <= |Pending(t)| {
      var k: nat := t.l0[i].sequence - 1;
      SequenceBack(k);
      assert FlushPath(t.l0[i].sequence) == NextFlush(t, k);
    }
  }

  lemma {:induction false} SequenceBack(k: nat)
    requires k < TWO_64 - 1
    ensures (1 + k) % TWO_64 == 1 + k
  {
  }

  /** Append, flush, reopen: the next flush overwrites the table of the first. */
  lemma {:induction false} FlushAfterReopenOverwrites(body: Event, target: nat)
    ensures var s := Flushed(Step(FRESH, Op.Append("AAPL", body, false), target));
            Overwrites(Reopened(s, s.wal, s.l0, s.l1))
  {
    var e := body.(sym := 1, seqId := 1);
    D.FirstInsert(body, target);
    var s0 := Step(FRESH, Op.Append("AAPL", body, false), target);
    D.FlushOne(s0, [e]);
    var s := Flushed(s0);
    hide Step;
    hide Flushed;
    assert s.wal == [e] && s.l0 == [Input(1, [e])];
    OneTableBack(s, e);
  }

  lemma {:induction false} OneTableBack(s: State, e: Event)
    requires s.wal == [e] && s.l0 == [Input(1, [e])]
    ensures Overwrites(Reopened(s, s.wal, s.l0, s.l1))
  {
    var t := Reopened(s, s.wal, s.l0, s.l1);
    D.SortNothing(s.l0);
    OneReplayed(e);
    hide Overlay;
    hide SortBySeq;
    assert t.active == [e] && t.l0 == s.l0;
    D.OnePending(t, [e]);
    OverwritesIff(t);
    hide Reopened;
    assert t.l0[0].sequence == 1;
  }

  /** With the table counter back at 1, a flush and a compaction overwrite a live table exactly when level 1 lists one
      of the sequences behind those of the flush. */
  lemma {:induction false} ReopenedCollidesIff(t: State, target: nat)
    requires t.sstSeq == 1 && 1 + |Pending(t)| < TWO_64 && Room(Flushed(t), target)
    ensures var n, m := 1 + |Pending(t)|, |NewTables(Flushed(t), target)|;
            N.Collides(Flushed(t), target) <==> exists j: nat :: j < |t.l1| && n <= t.l1[j].sequence < n + m
  {
    hide *;
    N.FlushCounts(t);
    N.CollidesExactly(Flushed(t), target);
  }

  /** Append, flush, compact, reopen, flush: the next compaction overwrites the table of the first, although each
      compaction writes a single file. */
  lemma {:induction false} CompactionAfterReopenCollides(body: Event, target: nat)
    ensures var s := Compacted(Flushed(Step(FRESH, Op.Append("AAPL", body, false), target)), target);
            N.Collides(Flushed(Reopened(s, s.wal, s.l0, s.l1)), target)
  {
    var e := body.(sym := 1, seqId := 1);
    var s0 := Step(FRESH, Op.Append("AAPL", body, false), target);
    D.FirstInsert(body, target);
    hide *;
    D.FirstCompaction(s0, e, target);
    MergedTableBack(Compacted(Flushed(s0), target), e, target);
  }

  lemma {:induction false} MergedTableBack(s: State, e: Event, target: nat)
    requires s.wal == [e] && s.l0 == [] && s.l1 == [Input(2, [e])]
    ensures N.Collides(Flushed(Reopened(s, s.wal, s.l0, s.l1)), target)
  {
    var t := Reopened(s, s.wal, s.l0, s.l1);
    OneReplayed(e);
    D.SortNothing(s.l0);
    D.SortNothing(s.l1);
    assert t.active == [e] && t.imms == [] && t.l0 == [] && t.l1 == s.l1 && t.sstSeq == 1;
    hide *;
    D.FlushOne(t, [e]);
    var u := Flushed(t);
    assert u.l0[0].events == [e];
    N.FlushedTableComesOut(u, e, target);
    assert u.l1[0].sequence == u.sstSeq;
    IsListed(u.l1, 0, u.sstSeq);
    N.ListedCollides(u, target);
  }

  lemma {:induction false} IsListed(l: seq<Input>, j: nat, q: nat)
    requires j < |l| && l[j].sequence == q
    ensures N.Listed(l, q)
  {
  }

  lemma {:induction false} OneReplayed(e: Event)
    ensures Overlay([], [e]) == [e]
  {
    D.OverlaySnoc([], e);
    D.OneUpsert(e);
    D.NothingSorted();
    assert [] + [e] == [e];
  }

  // ---- sequence ids after reopening ----

  /** No record left in the log carries an id that reopening hands out again. */
  ghost predicate NextUnused(kept: seq<Event>) {
    forall i :: 0 <= i < |kept| ==> kept[i].seqId < NextAfter(kept)
  }

  /** The next id is taken from the last record, so it is unused exactly when that record carries the greatest id and
      the addition does not wrap. */
  lemma {:induction false} NextUnusedIff(kept: seq<Event>)
    requires kept != []
    ensures var last := kept[|kept| - 1].seqId;
            NextUnused(kept) <==> last + 1 < TWO_64 && forall i :: 0 <= i < |kept| ==> kept[i].seqId <= last
  {
    var last: nat := kept[|kept| - 1].seqId;
    if last + 1 == 0x1_0000_0000_0000_0000 {
      assert NextAfter(kept) == 0;
    } else {
      assert NextAfter(kept) == last + 1;
    }
  }

  /** Then an append to the reopened database replaces nothing in its memory. */
  lemma {:induction false} UnusedIdAdds(s: State, kept: seq<Event>, d0: seq<Input>, d1: seq<Input>, symbol: string,
                                        body: Event, target: nat)
    requires NextUnused(kept)
    ensures var t := Reopened(s, kept, d0, d1);
            multiset(Step(t, Op.Append(symbol, body, false), target).active)
            == multiset(t.active) + multiset{Stamped(t, symbol, body)}
  {
    var t := Reopened(s, kept, d0, d1);
    var e := Stamped(t, symbol, body);
    forall d | d in t.active ensures KeyOf(d) != KeyOf(e) {
      OverlaidMember(kept, d);
    }
    UpsertBag(t.active, e);
    hide Overlay;
    hide SortBySeq;
    hide E.Upsert;
  }

  lemma {:induction false} OverlaidMember(w: seq<Event>, e: Event)
    requires e in Overlay([], w)
    ensures e in w
  {
    if w != [] {
      var n := |w| - 1;
      E.UpsertMember(Overlay([], w[..n]), w[n], e);
      if e != w[n] {
        OverlaidMember(w[..n], e);
      }
    }
  }

  /** Without removes the records are numbered from 1, and the next id follows the last of those that survive. */
  lemma {:induction false} AppendOnlyNext(ops: seq<Op>, target: nat, kept: seq<Event>)
    requires AppendOnly(ops) && InWidth(Run(ops, target), Log(ops, target))
    requires kept <= Run(ops, target).wal && |kept| + 1 < TWO_64
    ensures NextAfter(kept) == |kept| + 1 && NextUnused(kept)
  {
    hide *;
    RunInv(ops, target);
    WalIsLog(ops, target);
    Numbers(Run(ops, target), Log(ops, target), kept);
    LastNumber(kept);
  }

  lemma {:induction false} Numbers(s: State, log: seq<Named>, kept: seq<Event>)
    requires Inv(s, log) && kept <= Logged(log)
    ensures forall i :: 0 <= i < |kept| ==> kept[i].seqId == i + 1
  {
    hide StateSorted;
    hide SymbolsFine;
    hide Bag;
  }

  lemma {:induction false} LastNumber(kept: seq<Event>)
    requires |kept| + 1 < TWO_64 && forall i :: 0 <= i < |kept| ==> kept[i].seqId == i + 1
    ensures NextAfter(kept) == |kept| + 1 && NextUnused(kept)
  {
  }

  /** Append twice, remove the first event, reopen: the next append gets the id of the second event, and with the same
      time it takes that event's place. */
  lemma {:induction false} RemoveThenReopenReplaces(a: Event, b: Event, c: Event, target: nat)
    requires c.ts == b.ts && c.(sym := 1, seqId := 2) != b.(sym := 1, seqId := 2)
    ensures var ops := [Op.Append("AAPL", a, false), Op.Append("AAPL", b, false), Op.Remove("AAPL", a.ts, 1, false)];
            var s, live := Run(ops, target), b.(sym := 1, seqId := 2);
            var t := Reopened(s, s.wal, s.l0, s.l1);
            && !NextUnused(s.wal) && live in t.active && live !in Step(t, Op.Append("AAPL", c, false), target).active
  {
    var x, y, z := Op.Append("AAPL", a, false), Op.Append("AAPL", b, false), Op.Remove("AAPL", a.ts, 1, false);
    hide *;
    EmptyRun(target);
    N.RunSnoc([], x, target);
    N.RunSnoc([x], y, target);
    N.RunSnoc([x, y], z, target);
    assert [] + [x] == [x] && [x] + [y] == [x, y] && [x, y] + [z] == [x, y, z];
    D.FirstInsert(a, target);
    TwoMoreWrites(Run([x], target), a, b, target);
    LiveReplaced(Run([x, y, z], target), a.(sym := 1, seqId := 1), b.(sym := 1, seqId := 2), c, target);
  }

  lemma {:induction false} EmptyRun(target: nat)
    ensures Run([], target) == FRESH
  {
  }

  lemma {:induction false} TwoMoreWrites(s: State, a: Event, b: Event, target: nat)
    requires s.symbols == map["AAPL" := 1] && s.nextSeq == 2 && s.wal == [a.(sym := 1, seqId := 1)]
    ensures var t := Step(Step(s, Op.Append("AAPL", b, false), target), Op.Remove("AAPL", a.ts, 1, false), target);
            && t.symbols == s.symbols
            && t.wal == [a.(sym := 1, seqId := 1), b.(sym := 1, seqId := 2),
                         Event(a.ts, 1, 1, TOMBSTONE, 0, 0, 0, 0, 0, 0, 0)]
  {
    hide E.Upsert;
  }

  lemma {:induction false} LiveReplaced(s: State, a: Event, b: Event, c: Event, target: nat)
    requires s.symbols == map["AAPL" := 1] && b.sym == 1 && b.seqId == 2 && b.ts == c.ts
             && c.(sym := 1, seqId := 2) != b
    requires s.wal == [a, b, Event(a.ts, 1, 1, TOMBSTONE, 0, 0, 0, 0, 0, 0, 0)]
    ensures var t := Reopened(s, s.wal, s.l0, s.l1);
            && !NextUnused(s.wal) && b in t.active && b !in Step(t, Op.Append("AAPL", c, false), target).active
  {
    var d, e := s.wal[2], c.(sym := 1, seqId := 2);
    var t, m := Reopened(s, s.wal, s.l0, s.l1), Overlay([], [a]);
    assert NextAfter(s.wal) == 2;
    assert [a] + [b] + [d] == s.wal;
    D.OverlaySnoc([a], b);
    D.OverlaySnoc([a] + [b], d);
    E.UpsertMember(m, b, b);
    E.UpsertMember(E.Upsert(m, b), d, b);
    E.UpsertMember(t.active, e, b);
    hide E.Upsert;
    hide Overlay;
    hide SortBySeq;
    assert Stamped(t, "AAPL", c) == e;
  }
}
