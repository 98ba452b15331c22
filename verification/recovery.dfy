/** Recovery: the replayed records go into a memtable, in log order, and the log is opened for writing. */
module Recoveries {
  import opened Bytes
  import opened Core
  import opened Wal
  import C = Compactions
  import E = Events
  import L = SkipLists
  import M = MemTables
  import W = WalRuns

  function EventsOf(records: seq<WalRecord>): (es: seq<Event>)
    ensures |es| == |records| && forall i :: 0 <= i < |es| ==> es[i] == records[i].event
  {
    seq(|records|, i requires 0 <= i < |records| => records[i].event)
  }

  /** Whatever heights the skip list draws, the memtable ends up with the last record of every key. */
  method Recover(dir: Directory, target: M.MemTable, heights: nat -> nat) returns (r: Segment)
    requires target.Valid() && forall i :: 1 <= heights(i) <= L.MAX_HEIGHT
    modifies target, target.list, target.list.nodes
    ensures r == W.Replay(dir.files)
    ensures target.Valid() && target.Events() == C.Overlay(old(target.Events()), EventsOf(r.records))
  {
    hide *;
    r := ReadLog(dir);
    ghost var es, before := EventsOf(r.records), target.Events();
    NothingLaid(before, es);
    for i := 0 to |r.records|
      invariant target.Valid() && target.Events() == C.Overlay(before, es[..i])
      invariant fresh(target.list.nodes - old(target.list.nodes))
    {
      OneLaid(before, es, i);
      target.Insert(r.records[i].event, heights(i));
    }
    assert es[..|es|] == es;
  }

  /** All segments, in the order of their ids. */
  method ReadLog(dir: Directory) returns (r: Segment)
    ensures r == W.Replay(dir.files)
  {
    hide *;
    var maxId := MaxId(dir.files);
    HighestUnique(dir.files, maxId);
    r := ReadAll(dir.files, maxId);
    ReplayIs(dir.files, maxId);
  }

  lemma {:induction false} HighestUnique(dir: Dir, m: nat)
    requires IsMaxId(dir, m)
    ensures W.HighestId(dir) == m
  {
  }

  lemma {:induction false} ReplayIs(dir: Dir, m: nat)
    requires W.HighestId(dir) == m
    ensures W.Replay(dir) == ReadUpTo(dir, m)
  {
  }

  lemma {:induction false} NothingLaid(before: seq<Event>, es: seq<Event>)
    ensures C.Overlay(before, es[..0]) == before
  {
  }

  lemma {:induction false} OneLaid(before: seq<Event>, es: seq<Event>, i: nat)
    requires i < |es|
    ensures C.Overlay(before, es[..i + 1]) == E.Upsert(C.Overlay(before, es[..i]), es[i])
  {
    assert es[..i + 1][..i] == es[..i];
    hide E.Upsert;
  }

  // ---- opening the log ----

  /** `next_seq_` after a replay: one above the last record, or where it starts. */
  function NextSeq(records: seq<WalRecord>): u64 {
    if records == [] then 1 else (records[|records| - 1].event.seqId + 1) % TWO_64
  }

  /** The log's part of opening a database: replay into the memtable, the next sequence id, and a writer whose segment
      ends at the last whole record. */
  method OpenLog(dir: Directory, maxBytes: nat, target: M.MemTable, heights: nat -> nat)
      returns (r: Segment, w: Writer, nextSeq: u64)
    requires target.Valid() && forall i :: 1 <= heights(i) <= L.MAX_HEIGHT
    modifies dir, target, target.list, target.list.nodes
    ensures r == W.Replay(old(dir.files)) && nextSeq == NextSeq(r.records)
    ensures target.Valid() && target.Events() == C.Overlay(old(target.Events()), EventsOf(r.records))
    ensures fresh(w) && w.disk == dir && w.maxSegmentBytes == maxBytes && w.Valid()
            && w.State() == W.Recovered(old(dir.files))
  {
    hide *;
    r := Recover(dir, target, heights);
    nextSeq := AfterLast(r.records);
    w := OpenWriter(dir, maxBytes, r);
  }

  method AfterLast(records: seq<WalRecord>) returns (nextSeq: u64)
    ensures nextSeq == NextSeq(records)
  {
    nextSeq := 1;
    if records != [] {
      nextSeq := (records[|records| - 1].event.seqId + 1) % TWO_64;
    }
  }

  /** Opens the writer and, behind a torn tail, truncates and seals. */
  method OpenWriter(dir: Directory, maxBytes: nat, r: Segment) returns (w: Writer)
    requires r == W.Replay(dir.files)
    modifies dir
    ensures fresh(w) && w.disk == dir && w.maxSegmentBytes == maxBytes && w.Valid()
            && w.State() == W.Recovered(old(dir.files))
  {
    hide W.Replay;
    w := new Writer(dir, maxBytes);
    ghost var m: nat :| IsMaxId(old(dir.files), m) && w.State() == OpenSegment(old(dir.files), if m > 0 then m else 1);
    HighestUnique(old(dir.files), m);
    if r.torn {
      w.Seal(r.cleanEnd);
    }
  }
}
