/**
 Crash runs of the log: bursts of appends, cuts of the last segment at any byte,
 reopenings, and reopenings that die between truncation and rotation.
 */
module WalRuns {
  import opened Bytes
  import opened Core
  import opened Wal

  // ---- recovery, as the database does it on open ----

  lemma {:induction false} MaxIdExists(ids: set<nat>) returns (m: nat)
    ensures (m == 0 || m in ids) && forall id :: id in ids ==> id <= m
    decreases |ids|
  {
    m := 0;
    if ids != {} {
      var x :| x in ids;
      var other := MaxIdExists(ids - {x});
      m := if x > other then x else other;
      assert forall id :: id in ids ==> id == x || id in ids - {x};
    }
  }

  ghost function HighestId(dir: Dir): (m: nat)
    ensures IsMaxId(dir, m)
  {
    assert exists m: nat :: IsMaxId(dir, m) by {
      var m := MaxIdExists(dir.Keys);
      assert IsMaxId(dir, m);
    }
    var m: nat :| IsMaxId(dir, m);
    m
  }

  ghost function Replay(dir: Dir): Segment {
    ReadUpTo(dir, HighestId(dir))
  }

  ghost function OpenLatest(dir: Dir): (l: Log)
    ensures l.segment in l.dir
  {
    var m := HighestId(dir);
    OpenSegment(dir, if m > 0 then m else 1)
  }

  ghost function Recovered(dir: Dir): Log {
    var r := Replay(dir);
    if r.torn then TruncateAndSeal(OpenLatest(dir), r.cleanEnd) else OpenLatest(dir)
  }

  /** The same, dying after the truncation and before the rotation. */
  ghost function RecoveryCutShort(dir: Dir): Dir {
    var r := Replay(dir);
    if r.torn then Truncate(OpenLatest(dir), r.cleanEnd).dir else OpenLatest(dir).dir
  }

  // ---- runs ----

  datatype Op = Append(e: Event) | Crash(cut: nat) | Reopen | ReopenCutShort

  datatype Process = Up(log: Log) | Down(dir: Dir)

  function DirOf(p: Process): Dir {
    match p
    case Up(log) => log.dir
    case Down(dir) => dir
  }

  ghost function CutLast(dir: Dir, cut: nat): Dir {
    var m := HighestId(dir);
    if m in dir && cut < |dir[m]| then dir[m := dir[m][..cut]] else dir
  }

  ghost function Step(p: Process, op: Op, maxBytes: nat): Process {
    match op
    case Append(e) => if p.Up? && p.log.segment in p.log.dir then Up(AppendRecord(p.log, e, maxBytes)) else p
    case Crash(cut) => Down(CutLast(DirOf(p), cut))
    case Reopen => if p.Down? then Up(Recovered(p.dir)) else p
    case ReopenCutShort => if p.Down? then Down(RecoveryCutShort(p.dir)) else p
  }

  ghost function Run(ops: seq<Op>, maxBytes: nat): Process {
    if ops == [] then Up(OpenSegment(map[], 1))
    else Step(Run(ops[..|ops| - 1], maxBytes), ops[|ops| - 1], maxBytes)
  }

  // ---- what should survive, without bytes ----

  /** The events of each segment, and the length of the torn record behind the last. */
  datatype Ledger = Ledger(segments: seq<seq<Event>>, tail: nat, up: bool)

  function Last(h: Ledger): seq<Event>
    requires h.segments != []
  {
    h.segments[|h.segments| - 1]
  }

  function SetLast(h: Ledger, es: seq<Event>): (r: seq<seq<Event>>)
    requires h.segments != []
    ensures |r| == |h.segments|
  {
    h.segments[|h.segments| - 1 := es]
  }

  function LedgerStep(h: Ledger, op: Op, maxBytes: nat): (r: Ledger)
    requires h.segments != []
    ensures r.segments != []
  {
    match op
    case Append(e) =>
      if !h.up then h
      else
        var es := Last(h) + [e];
        if RECORD * |es| >= maxBytes then h.(segments := SetLast(h, es) + [[]])
        else h.(segments := SetLast(h, es))
    case Crash(cut) =>
      var es := Last(h);
      if cut < RECORD * |es| then Ledger(SetLast(h, es[..cut / RECORD]), cut % RECORD, false)
      else if cut < RECORD * |es| + h.tail then Ledger(h.segments, cut - RECORD * |es|, false)
      else h.(up := false)
    case Reopen =>
      if h.up then h
      else if h.tail > 0 then Ledger(h.segments + [[]], 0, true)
      else h.(up := true)
    case ReopenCutShort => if h.up then h else h.(tail := 0)
  }

  function LedgerRun(ops: seq<Op>, maxBytes: nat): (h: Ledger)
    ensures h.segments != []
  {
    if ops == [] then Ledger([[]], 0, true)
    else LedgerStep(LedgerRun(ops[..|ops| - 1], maxBytes), ops[|ops| - 1], maxBytes)
  }

  function Survivors(segments: seq<seq<Event>>): seq<WalRecord> {
    if segments == [] then []
    else Survivors(segments[..|segments| - 1]) + Offsets(segments[|segments| - 1], 0)
  }

  // ---- the refinement ----

  /** Segment files 1..n hold the ledger's events; only the last may end in a torn record. */
  ghost predicate Matches(p: Process, h: Ledger) {
    && h.segments != []
    && MatchesDir(DirOf(p), h.segments, h.tail)
    && (h.up <==> p.Up?)
    && (p.Up? ==> h.tail == 0 && p.log.segment == |h.segments|)
  }

  ghost predicate MatchesDir(dir: Dir, segments: seq<seq<Event>>, tail: nat)
    requires segments != []
  {
    var n := |segments|;
    && (forall id :: id in dir <==> 1 <= id <= n)
    && (forall i :: 0 <= i < n - 1 ==> Clean(dir[i + 1], segments[i]))
    && TornAfter(dir[n], segments[n - 1]) && |dir[n]| == RECORD * |segments[n - 1]| + tail
  }

  ghost predicate Clean(f: seq<byte>, es: seq<Event>) {
    Holds(f, es) && |f| == RECORD * |es|
  }

  lemma {:induction false} SomeRecord(f: seq<byte>, es: seq<Event>)
    requires Clean(f, es)
    ensures TornAfter(f, es)
  {
    CleanIsTornAfter(f, es, Event(0, 0, 0, 0, 0, 0, 0, 0, 0, 0, 0));
  }

  lemma {:induction false} ReplayClean(dir: Dir, h: Ledger, n: nat)
    requires h.segments != [] && MatchesDir(dir, h.segments, h.tail) && n < |h.segments|
    ensures ReadUpTo(dir, n).records == Survivors(h.segments[..n])
    ensures !ReadUpTo(dir, n).torn
  {
    hide TornAfter;
    hide Holds;
    hide ReadFrom;
    if n > 0 {
      ReplayClean(dir, h, n - 1);
      assert Clean(dir[n - 1 + 1], h.segments[n - 1]);
      CleanFields(dir[n], h.segments[n - 1]);
      ReadTornSegment(dir[n], h.segments[n - 1]);
      assert h.segments[..n][..n - 1] == h.segments[..n - 1];
    }
  }

  lemma {:induction false} CleanFields(f: seq<byte>, es: seq<Event>)
    requires Clean(f, es)
    ensures TornAfter(f, es) && |f| == RECORD * |es|
  {
    SomeRecord(f, es);
  }

  /** Replay returns exactly the ledger's records, and reports a torn tail exactly when there is one. */
  lemma {:induction false} ReplayIsLedger(dir: Dir, h: Ledger)
    requires h.segments != [] && MatchesDir(dir, h.segments, h.tail)
    ensures HighestId(dir) == |h.segments|
    ensures Replay(dir).records == Survivors(h.segments)
    ensures Replay(dir).cleanEnd == RECORD * |Last(h)|
    ensures Replay(dir).torn <==> h.tail > 0
  {
    hide TornAfter;
    hide Holds;
    hide ReadFrom;
    var n := |h.segments|;
    assert n in dir;
    ReplayClean(dir, h, n - 1);
    ReadTornSegment(dir[n], Last(h));
  }

  lemma {:induction false} AppendMatches(l: Log, h: Ledger, e: Event, maxBytes: nat)
    requires Matches(Up(l), h)
    ensures l.segment in l.dir
    ensures Matches(Up(AppendRecord(l, e, maxBytes)), LedgerStep(h, Append(e), maxBytes))
  {
    hide Record;
    hide TornAfter;
    var n := |h.segments|;
    var es := Last(h) + [e];
    var file := l.dir[n] + Record(e);
    TornIsHolds(l.dir[n], Last(h));
    AppendHolds(l.dir[n], Last(h), e);
    assert Clean(file, es);
    SomeRecord(file, es);
    if |file| >= maxBytes {
      SomeRecord([], []);
    }
  }

  lemma {:induction false} TornIsHolds(f: seq<byte>, es: seq<Event>)
    requires TornAfter(f, es)
    ensures Holds(f, es)
  {
  }

  lemma {:induction false} CrashMatches(p: Process, h: Ledger, cut: nat, maxBytes: nat)
    requires Matches(p, h)
    ensures Matches(Down(CutLast(DirOf(p), cut)), LedgerStep(h, Crash(cut), maxBytes))
  {
    hide TornAfter;
    hide Holds;
    var n := |h.segments|;
    var dir := DirOf(p);
    assert HighestId(dir) == n by {
      assert n in dir;
    }
    if cut < |dir[n]| {
      CutSegment(dir[n], Last(h), cut);
      if cut >= RECORD * |Last(h)| {
        TornBound(dir[n], Last(h));
        assert cut / RECORD == |Last(h)|;
        assert Last(h)[..|Last(h)|] == Last(h);
      }
    }
  }

  lemma {:induction false} TornBound(f: seq<byte>, es: seq<Event>)
    requires TornAfter(f, es)
    ensures RECORD * |es| <= |f| < RECORD * |es| + RECORD
  {
  }

  lemma {:induction false} TruncateMatches(dir: Dir, h: Ledger)
    requires Matches(Down(dir), h)
    ensures MatchesDir(RecoveryCutShort(dir), h.segments, 0)
    ensures Replay(dir).torn ==> Truncate(OpenLatest(dir), Replay(dir).cleanEnd).dir == RecoveryCutShort(dir)
    ensures OpenLatest(dir).segment == |h.segments|
  {
    hide TornAfter;
    hide Holds;
    hide Replay;
    ReplayIsLedger(dir, h);
    var n := |h.segments|;
    TornBound(dir[n], Last(h));
    if h.tail > 0 {
      CutSegment(dir[n], Last(h), RECORD * |Last(h)|);
      assert Last(h)[..|Last(h)|] == Last(h);
    }
  }

  lemma {:induction false} RotateMatches(l: Log, h: Ledger)
    requires h.segments != [] && MatchesDir(l.dir, h.segments, 0) && l.segment == |h.segments|
    ensures MatchesDir(Rotate(l).dir, h.segments + [[]], 0)
    ensures Rotate(l).segment == |h.segments| + 1
  {
    hide Clean;
    hide TornAfter;
    EmptySegment();
    SegmentIsClean(l.dir[|h.segments|], Last(h));
  }

  lemma {:induction false} ReopenMatches(dir: Dir, h: Ledger, maxBytes: nat)
    requires Matches(Down(dir), h)
    ensures Matches(Up(Recovered(dir)), LedgerStep(h, Reopen, maxBytes))
  {
    hide MatchesDir;
    hide Replay;
    assert MatchesDir(dir, h.segments, h.tail);
    ReplayIsLedger(dir, h);
    TruncateMatches(dir, h);
    if h.tail > 0 {
      RotateMatches(Truncate(OpenLatest(dir), Replay(dir).cleanEnd), h);
    }
  }

  lemma {:induction false} EmptySegment()
    ensures TornAfter([], [])
  {
    SomeRecord([], []);
  }

  lemma {:induction false} SegmentIsClean(f: seq<byte>, es: seq<Event>)
    requires TornAfter(f, es) && |f| == RECORD * |es|
    ensures Clean(f, es)
  {
  }

  lemma {:induction false} StepMatches(p: Process, h: Ledger, op: Op, maxBytes: nat)
    requires Matches(p, h)
    ensures Matches(Step(p, op, maxBytes), LedgerStep(h, op, maxBytes))
  {
    match op
    case Append(e) => if p.Up? { AppendMatches(p.log, h, e, maxBytes); }
    case Crash(cut) => CrashMatches(p, h, cut, maxBytes);
    case Reopen => if p.Down? { ReopenMatches(p.dir, h, maxBytes); }
    case ReopenCutShort => if p.Down? { TruncateMatches(p.dir, h); }
  }

  /** Every crash run keeps the files in step with the ledger. */
  lemma {:induction false} RunMatches(ops: seq<Op>, maxBytes: nat)
    ensures Matches(Run(ops, maxBytes), LedgerRun(ops, maxBytes))
  {
    if ops == [] {
      SomeRecord([], []);
    } else {
      RunMatches(ops[..|ops| - 1], maxBytes);
      StepMatches(Run(ops[..|ops| - 1], maxBytes), LedgerRun(ops[..|ops| - 1], maxBytes), ops[|ops| - 1], maxBytes);
    }
  }

  // ---- the promises ----

  ghost function ReplayOf(p: Process): seq<WalRecord> {
    Replay(DirOf(p)).records
  }

  /** After any crash run, replay is exactly what survived, in append order with its offsets. */
  lemma {:induction false} ReplayIsSurvivors(ops: seq<Op>, maxBytes: nat)
    ensures ReplayOf(Run(ops, maxBytes)) == Survivors(LedgerRun(ops, maxBytes).segments)
  {
    RunMatches(ops, maxBytes);
    ReplayIsLedger(DirOf(Run(ops, maxBytes)), LedgerRun(ops, maxBytes));
  }

  /** Nothing appended after a recovery is hidden: an append adds exactly its record to the replay. */
  lemma {:induction false} AppendIsNeverHidden(ops: seq<Op>, e: Event, maxBytes: nat)
    requires Run(ops, maxBytes).Up?
    ensures var p := Run(ops, maxBytes);
            p.log.segment in p.log.dir
            && ReplayOf(Run(ops + [Append(e)], maxBytes)) == ReplayOf(p) + [WalRecord(e, |p.log.dir[p.log.segment]|)]
  {
    var h := LedgerRun(ops, maxBytes);
    assert (ops + [Append(e)])[..|ops|] == ops;
    RunMatches(ops, maxBytes);
    ReplayIsSurvivors(ops, maxBytes);
    ReplayIsSurvivors(ops + [Append(e)], maxBytes);
    SurvivorsAppend(h, e, maxBytes);
  }

  lemma {:induction false} SurvivorsAppend(h: Ledger, e: Event, maxBytes: nat)
    requires h.segments != [] && h.up
    ensures Survivors(LedgerStep(h, Append(e), maxBytes).segments)
            == Survivors(h.segments) + [WalRecord(e, RECORD * |Last(h)|)]
  {
    var n := |h.segments|;
    var es := Last(h) + [e];
    var s := SetLast(h, es);
    assert s[..n - 1] == h.segments[..n - 1];
    assert Offsets(es, 0) == Offsets(Last(h), 0) + [WalRecord(e, RECORD * |Last(h)|)];
    assert (s + [[]])[..n] == s;
    assert Offsets([], 0) == [];
  }

  /** Reopening, finished or cut short, loses nothing, and leaves no torn record behind. */
  lemma {:induction false} ReopenKeepsReplay(ops: seq<Op>, op: Op, maxBytes: nat)
    requires Run(ops, maxBytes).Down? && (op == Reopen || op == ReopenCutShort)
    ensures var p, q := Run(ops, maxBytes), Run(ops + [op], maxBytes);
            ReplayOf(q) == ReplayOf(p) && !Replay(DirOf(q)).torn
  {
    var h := LedgerRun(ops, maxBytes);
    var ops' := ops + [op];
    assert ops'[..|ops|] == ops;
    RunMatches(ops, maxBytes);
    ReplayIsSurvivors(ops, maxBytes);
    RunMatches(ops', maxBytes);
    ReplayIsSurvivors(ops', maxBytes);
    ReplayIsLedger(DirOf(Run(ops', maxBytes)), LedgerRun(ops', maxBytes));
    ReopenedLedger(h, op, maxBytes);
    hide ReplayOf;
    hide Run;
    hide Survivors;
    hide Matches;
    hide MatchesDir;
  }

  lemma {:induction false} ReopenedLedger(h: Ledger, op: Op, maxBytes: nat)
    requires h.segments != [] && !h.up && (op == Reopen || op == ReopenCutShort)
    ensures var k := LedgerStep(h, op, maxBytes); Survivors(k.segments) == Survivors(h.segments) && k.tail == 0
  {
    assert (h.segments + [[]])[..|h.segments|] == h.segments;
    assert Offsets([], 0) == [];
  }

  /** A crash keeps every record outside the last segment and, in it, exactly those wholly before the cut. */
  lemma {:induction false} CrashKeepsWholeRecords(ops: seq<Op>, cut: nat, maxBytes: nat)
    ensures var before, after := LedgerRun(ops, maxBytes), ReplayOf(Run(ops + [Crash(cut)], maxBytes));
            var kept := if cut / RECORD < |Last(before)| then cut / RECORD else |Last(before)|;
            |after| == |ReplayOf(Run(ops, maxBytes))| - (|Last(before)| - kept)
            && after == ReplayOf(Run(ops, maxBytes))[..|after|]
  {
    hide ReplayOf;
    hide Run;
    var h := LedgerRun(ops, maxBytes);
    var n := |h.segments|;
    assert (ops + [Crash(cut)])[..|ops|] == ops;
    ReplayIsSurvivors(ops, maxBytes);
    ReplayIsSurvivors(ops + [Crash(cut)], maxBytes);
    if cut < RECORD * |Last(h)| {
      var es := Last(h)[..cut / RECORD];
      assert SetLast(h, es)[..n - 1] == h.segments[..n - 1];
      assert Offsets(es, 0) == Offsets(Last(h), 0)[..|es|];
    }
  }
}
