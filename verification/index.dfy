/** The sparse index of a table: the first key, offset and size of every block. */
module Indexes {
  import opened Bytes
  import opened Core
  import opened Wrappers

  const ENTRY_SIZE: nat := 32

  datatype IndexEntry = IndexEntry(firstKey: Key, offset: u64, size: u32)

  // ---- lookup ----

  /** lo is the last entry not above the key, or the first entry when all are above. */
  ghost predicate IsStart(entries: seq<IndexEntry>, key: Key, lo: nat) {
    && lo < |entries|
    && (lo == 0 || AtMost(entries[lo].firstKey, key))
    && (lo + 1 == |entries| || Less(key, entries[lo + 1].firstKey))
  }

  /** The entries from `start` on that do not begin above `end`. */
  function Span(entries: seq<IndexEntry>, start: nat, end: Key): (s: seq<nat>)
    requires start <= |entries|
    ensures forall i :: 0 <= i < |s| ==> s[i] == start + i
    ensures start + |s| <= |entries|
    ensures forall i :: start <= i < start + |s| ==> AtMost(entries[i].firstKey, end)
    ensures start + |s| < |entries| ==> Less(end, entries[start + |s|].firstKey)
    decreases |entries| - start
  {
    if start == |entries| || Less(end, entries[start].firstKey) then [] else [start] + Span(entries, start + 1, end)
  }

  lemma {:induction false} SpanNext(entries: seq<IndexEntry>, i: nat, end: Key, before: seq<nat>)
    requires i < |entries|
    ensures Less(end, entries[i].firstKey) ==> before + Span(entries, i, end) == before
    ensures !Less(end, entries[i].firstKey)
            ==> before + Span(entries, i, end) == before + [i] + Span(entries, i + 1, end)
  {
    hide Less;
  }

  class IndexBlock {
    var entries: seq<IndexEntry>

    constructor ()
      ensures entries == []
    {
      entries := [];
    }

    method Add(firstKey: Key, offset: u64, size: u32)
      modifies this
      ensures entries == old(entries) + [IndexEntry(firstKey, offset, size)]
    {
      entries := entries + [IndexEntry(firstKey, offset, size)];
    }

    method FindFirstBlock(key: Key) returns (r: Option<nat>)
      ensures r.None? <==> entries == []
      ensures r.Some? ==> IsStart(entries, key, r.value)
    {
      if entries == [] {
        return None;
      }
      var lo, hi := 0, |entries|;
      while lo + 1 < hi
        invariant 0 <= lo < hi <= |entries|
        invariant lo == 0 || AtMost(entries[lo].firstKey, key)
        invariant hi == |entries| || Less(key, entries[hi].firstKey)
      {
        var mid := (lo + hi) / 2;
        if !Less(key, entries[mid].firstKey) {
          lo := mid;
        } else {
          hi := mid;
        }
      }
      return Some(lo);
    }

    method BlocksInRange(start: Key, end: Key) returns (result: seq<nat>)
      ensures entries == [] ==> result == []
      ensures entries != [] ==> exists first :: IsStart(entries, start, first) && result == Span(entries, first, end)
    {
      result := [];
      if entries == [] {
        return;
      }
      var r := FindFirstBlock(start);
      var i := r.value;
      hide *;
      ghost var whole := Span(entries, i, end);
      while i < |entries|
        invariant r.value <= i <= |entries|
        invariant result + Span(entries, i, end) == whole
      {
        SpanNext(entries, i, end, result);
        if Less(end, entries[i].firstKey) {
          return;
        }
        result := result + [i];
        i := i + 1;
      }
    }

    method Encode() returns (buf: seq<byte>)
      ensures buf == EncodeIndex(entries)
    {
      hide EncodeEntry;
      buf := EncodeLE(|entries| % TWO_32, 4);
      for i := 0 to |entries|
        invariant buf == EncodeLE(|entries| % TWO_32, 4) + EncodeEntries(entries[..i])
      {
        assert entries[..i + 1][..i] == entries[..i];
        buf := buf + EncodeEntry(entries[i]);
      }
      assert entries[..|entries|] == entries;
    }
  }

  // ---- codec ----

  function EncodeEntry(e: IndexEntry): (s: seq<byte>)
    ensures |s| == ENTRY_SIZE
  {
    EncodeKey(e.firstKey) + EncodeLE(e.offset, 8) + EncodeLE(e.size, 4)
  }

  function DecodeEntry(d: seq<byte>): IndexEntry
    requires |d| == ENTRY_SIZE
  {
    IndexEntry(DecodeKey(d[..20]), Read64(d, 20), Read32(d, 28))
  }

  function EncodeEntries(es: seq<IndexEntry>): (s: seq<byte>)
    ensures |s| == ENTRY_SIZE * |es|
  {
    if es == [] then [] else EncodeEntries(es[..|es| - 1]) + EncodeEntry(es[|es| - 1])
  }

  function EncodeIndex(es: seq<IndexEntry>): (s: seq<byte>)
    ensures |s| == 4 + ENTRY_SIZE * |es|
  {
    EncodeLE(|es| % TWO_32, 4) + EncodeEntries(es)
  }

  function DecodeEntries(d: seq<byte>, n: nat): (es: seq<IndexEntry>)
    requires 4 + ENTRY_SIZE * n <= |d|
    ensures |es| == n
  {
    seq(n, i requires 0 <= i < n => DecodeEntry(d[4 + ENTRY_SIZE * i..4 + ENTRY_SIZE * i + ENTRY_SIZE]))
  }

  function DecodeIndex(d: seq<byte>): Result<seq<IndexEntry>> {
    if |d| < 4 then Err
    else if |d| < 4 + Read32(d, 0) * ENTRY_SIZE then Err
    else Ok(DecodeEntries(d, Read32(d, 0)))
  }

  method Decode(d: seq<byte>) returns (r: Result<seq<IndexEntry>>)
    ensures r == DecodeIndex(d)
  {
    hide Read32;
    hide DecodeEntry;
    if |d| < 4 {
      return Err;
    }
    var count := Read32(d, 0);
    if |d| < 4 + count * ENTRY_SIZE {
      return Err;
    }
    var entries: seq<IndexEntry> := [];
    var p := 4;
    for i := 0 to count
      invariant p == 4 + ENTRY_SIZE * i && entries == DecodeEntries(d, i)
    {
      entries := entries + [DecodeEntry(d[p..p + ENTRY_SIZE])];
      p := p + ENTRY_SIZE;
    }
    r := Ok(entries);
  }

  lemma {:induction false} EntryRoundTrip(e: IndexEntry)
    ensures DecodeEntry(EncodeEntry(e)) == e
  {
    var s := EncodeEntry(e);
    hide DecodeKey;
    hide EncodeKey;
    assert s[..20] == EncodeKey(e.firstKey);
    assert s[20..28] == EncodeLE(e.offset, 8);
    assert s[28..32] == EncodeLE(e.size, 4);
    KeyRoundTrip(e.firstKey);
    Read64From(s, 20, e.offset);
    Read32From(s, 28, e.size);
  }

  lemma {:induction false} EntryAt(es: seq<IndexEntry>, i: nat)
    requires i < |es|
    ensures EncodeEntries(es)[ENTRY_SIZE * i..ENTRY_SIZE * i + ENTRY_SIZE] == EncodeEntry(es[i])
  {
    hide EncodeEntry;
    var n := |es| - 1;
    if i < n {
      EntryAt(es[..n], i);
      assert EncodeEntries(es)[ENTRY_SIZE * i..ENTRY_SIZE * i + ENTRY_SIZE]
          == EncodeEntries(es[..n])[ENTRY_SIZE * i..ENTRY_SIZE * i + ENTRY_SIZE];
    }
  }

  lemma {:induction false} IndexRoundTrip(es: seq<IndexEntry>)
    requires |es| < TWO_32
    ensures DecodeIndex(EncodeIndex(es)) == Ok(es)
  {
    var d := EncodeIndex(es);
    assert |es| % TWO_32 == |es|;
    assert d[0..4] == EncodeLE(|es|, 4);
    Read32From(d, 0, |es|);
    hide Read32;
    hide EncodeEntry;
    hide DecodeEntry;
    hide EncodeLE;
    forall i | 0 <= i < |es| ensures DecodeEntry(d[4 + ENTRY_SIZE * i..4 + ENTRY_SIZE * i + ENTRY_SIZE]) == es[i] {
      EntryAt(es, i);
      assert d[4 + ENTRY_SIZE * i..4 + ENTRY_SIZE * i + ENTRY_SIZE]
        == EncodeEntries(es)[ENTRY_SIZE * i..ENTRY_SIZE * i + ENTRY_SIZE];
      EntryRoundTrip(es[i]);
    }
    assert DecodeEntries(d, |es|) == es;
  }
}
