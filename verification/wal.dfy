/**
 The write-ahead log: record format, segment reader and writer.

 A directory maps segment ids to file contents. A segment is parsed one record
 at a time; the first record that does not check out ends it.
 */
module Wal {
  import opened Bytes
  import opened Core
  import opened Wrappers
  import opened Crc32c

  const MAGIC: u32 := 0x4B524F4E
  const VERSION: byte := 1
  const HEADER: nat := 13
  const RECORD: nat := 78

  type Dir = map<nat, seq<byte>>

  /** The checksum covers version, length and payload, in two chained calls. */
  function WalCrc(versionAndLen: seq<byte>, payload: seq<byte>): Word {
    Crc(payload, Crc(versionAndLen, Zeros(32)))
  }

  function HeaderForCrc(payloadLen: nat): (s: seq<byte>)
    ensures |s| == 5
  {
    [VERSION] + EncodeLE(payloadLen, 4)
  }

  function Record(e: Event): (r: seq<byte>)
    ensures |r| == RECORD
  {
    EncodeLE(MAGIC, 4) + HeaderForCrc(EVENT_SIZE)
    + CrcBytes(WalCrc(HeaderForCrc(EVENT_SIZE), EncodeEvent(e))) + EncodeEvent(e)
  }

  lemma {:induction false} WalCrcIsOneStream(versionAndLen: seq<byte>, payload: seq<byte>)
    ensures WalCrc(versionAndLen, payload) == Crc(versionAndLen + payload, Zeros(32))
  {
    CrcChaining(versionAndLen, payload, Zeros(32));
  }

  // ---- reading one segment ----

  datatype WalRecord = WalRecord(event: Event, fileOffset: nat)

  /** One turn of the reading loop: no full header, a rejected record, or a consumed one. */
  datatype Turn = Short | Rejected | Consumed(event: Option<Event>, next: nat)

  function TurnAt(f: seq<byte>, at: nat): (t: Turn)
    ensures t.Consumed? ==> at + HEADER <= t.next <= |f|
    ensures t.Rejected? ==> at + HEADER <= |f|
    ensures t.Short? <==> at + HEADER > |f|
  {
    if at + HEADER > |f| then Short
    else if Read32(f, at) != MAGIC || f[at + 4] != VERSION then Rejected
    else
      var len := Read32(f, at + 5);
      var end := at + HEADER + len;
      if end > |f| then Rejected
      else if ValueOf(WalCrc(HeaderForCrc(len), f[at + HEADER..end])) != Read32(f, at + 9) then Rejected
      else if len == EVENT_SIZE then Consumed(Some(DecodeEvent(f[at + HEADER..end])), end)
      else Consumed(None, end)
  }

  datatype Segment = Segment(records: seq<WalRecord>, cleanEnd: nat, torn: bool, tornBytes: nat)

  /** A rejected record counts the bytes behind it once where it is met and once at the end. */
  function ReadFrom(f: seq<byte>, at: nat): (s: Segment)
    requires at <= |f|
    ensures at <= s.cleanEnd <= |f|
    ensures s.torn <==> s.cleanEnd < |f|
    decreases |f| - at
  {
    match TurnAt(f, at)
    case Short => Segment([], at, at < |f|, |f| - at)
    case Rejected => Segment([], at, true, 2 * (|f| - at))
    case Consumed(e, next) =>
      var rest := ReadFrom(f, next);
      if e.Some? then rest.(records := [WalRecord(e.value, at)] + rest.records) else rest
  }

  /** Reading on from a later offset finishes what `records` began. */
  ghost predicate Resumes(whole: Segment, records: seq<WalRecord>, rest: Segment) {
    && whole.records == records + rest.records
    && whole.cleanEnd == rest.cleanEnd && whole.torn == rest.torn && whole.tornBytes == rest.tornBytes
  }

  /** One record where a full header is left. */
  method ReadRecord(f: seq<byte>, offset: nat) returns (t: Turn)
    requires offset + HEADER <= |f|
    ensures t == TurnAt(f, offset)
  {
    hide WalCrc;
    hide HeaderForCrc;
    hide DecodeEvent;
    hide ValueOf;
    hide Read32;
    var magic, version := Read32(f, offset), f[offset + 4];
    var payloadLen, storedCrc := Read32(f, offset + 5), Read32(f, offset + 9);
    if magic != MAGIC || version != VERSION {
      return Rejected;
    }
    if offset + HEADER + payloadLen > |f| {
      return Rejected;
    }
    var payload := f[offset + HEADER..offset + HEADER + payloadLen];
    if ValueOf(WalCrc(HeaderForCrc(payloadLen), payload)) != storedCrc {
      return Rejected;
    }
    var next := offset + HEADER + payloadLen;
    t := if payloadLen == EVENT_SIZE then Consumed(Some(DecodeEvent(payload)), next) else Consumed(None, next);
  }

  lemma {:induction false} AfterTurn(f: seq<byte>, at: nat, whole: Segment, records: seq<WalRecord>)
    requires at <= |f| && Resumes(whole, records, ReadFrom(f, at))
    ensures match TurnAt(f, at)
            case Short => whole == Segment(records, at, at < |f|, |f| - at)
            case Rejected => whole == Segment(records, at, true, 2 * (|f| - at))
            case Consumed(e, next) =>
              Resumes(whole, if e.Some? then records + [WalRecord(e.value, at)] else records, ReadFrom(f, next))
  {
    hide TurnAt;
    if TurnAt(f, at).Consumed? && TurnAt(f, at).event.Some? {
      var rec, rest := WalRecord(TurnAt(f, at).event.value, at), ReadFrom(f, TurnAt(f, at).next);
      assert records + ([rec] + rest.records) == (records + [rec]) + rest.records;
    }
  }

  method ReadSegment(f: seq<byte>) returns (s: Segment)
    ensures s == ReadFrom(f, 0)
  {
    ghost var whole := ReadFrom(f, 0);
    assert Resumes(whole, [], whole);
    hide TurnAt;
    hide ReadFrom;
    hide Resumes;
    var records: seq<WalRecord> := [];
    var torn, tornBytes, offset := false, 0, 0;
    while offset + HEADER <= |f|
      invariant offset <= |f| && !torn && tornBytes == 0
      invariant Resumes(whole, records, ReadFrom(f, offset))
      decreases |f| - offset
    {
      var t := ReadRecord(f, offset);
      AfterTurn(f, offset, whole, records);
      if t.Rejected? {
        torn, tornBytes := true, tornBytes + |f| - offset;
        break;
      }
      if t.event.Some? {
        records := records + [WalRecord(t.event.value, offset)];
      }
      offset := t.next;
    }
    AfterTurn(f, offset, whole, records);
    if offset < |f| {
      torn, tornBytes := true, tornBytes + |f| - offset;
    }
    s := Segment(records, offset, torn, tornBytes);
  }

  // ---- reading the directory ----

  /** Replay of segments 1..n; a missing segment is passed over. */
  function ReadUpTo(dir: Dir, n: nat): Segment {
    if n == 0 then Segment([], 0, false, 0)
    else
      var before := ReadUpTo(dir, n - 1);
      if n !in dir then before
      else
        var s := ReadFrom(dir[n], 0);
        Segment(before.records + s.records, s.cleanEnd, before.torn || s.torn, before.tornBytes + s.tornBytes)
  }

  /** The largest segment id present, 0 when there is none. */
  ghost predicate IsMaxId(dir: Dir, m: nat) {
    (m == 0 || m in dir) && forall id :: id in dir ==> id <= m
  }

  method MaxId(dir: Dir) returns (m: nat)
    ensures IsMaxId(dir, m)
  {
    m := 0;
    var rest := dir.Keys;
    while rest != {}
      invariant rest <= dir.Keys
      invariant m == 0 || m in dir
      invariant forall id :: id in dir && id !in rest ==> id <= m
      decreases |rest|
    {
      var id :| id in rest;
      m := if id > m then id else m;
      rest := rest - {id};
    }
  }

  method ReadAll(dir: Dir, maxId: nat) returns (r: Segment)
    ensures r == ReadUpTo(dir, maxId)
  {
    r := Segment([], 0, false, 0);
    for n := 0 to maxId
      invariant r == ReadUpTo(dir, n)
    {
      if n + 1 in dir {
        var s := ReadSegment(dir[n + 1]);
        r := Segment(r.records + s.records, s.cleanEnd, r.torn || s.torn, r.tornBytes + s.tornBytes);
      }
    }
  }

  // ---- what the records of a segment parse to ----

  /** The first 78*|es| bytes of f are the records of es. */
  ghost predicate Holds(f: seq<byte>, es: seq<Event>) {
    RECORD * |es| <= |f|
    && forall j :: 0 <= j < |es| ==> f[RECORD * j..RECORD * j + RECORD] == Record(es[j])
  }

  /** Behind the records of es, f has at most a torn record. */
  ghost predicate TornAfter(f: seq<byte>, es: seq<Event>) {
    Holds(f, es) && |f| < RECORD * |es| + RECORD
    && exists e :: f[RECORD * |es|..] == Record(e)[..|f| - RECORD * |es|]
  }

  function Offsets(es: seq<Event>, from: nat): (r: seq<WalRecord>)
    ensures |r| == |es|
    ensures forall j :: 0 <= j < |es| ==> r[j] == WalRecord(es[j], RECORD * (from + j))
  {
    seq(|es|, j requires 0 <= j < |es| => WalRecord(es[j], RECORD * (from + j)))
  }

  lemma {:induction false} HeaderFields(r: seq<byte>, e: Event, n: nat)
    requires n <= |r| && HEADER <= n <= RECORD && r[..n] == Record(e)[..n]
    ensures Read32(r, 0) == MAGIC && r[4] == VERSION && Read32(r, 5) == EVENT_SIZE
    ensures Read32(r, 9) == ValueOf(WalCrc(HeaderForCrc(EVENT_SIZE), EncodeEvent(e)))
  {
    var s := Record(e);
    var crc := WalCrc(HeaderForCrc(EVENT_SIZE), EncodeEvent(e));
    assert r[0..4] == s[..n][0..4] == s[0..4] == EncodeLE(MAGIC, 4);
    assert r[4] == s[..n][4] == s[4];
    assert r[5..9] == s[..n][5..9] == s[5..9] == EncodeLE(EVENT_SIZE, 4);
    assert r[9..13] == s[..n][9..13] == s[9..13] == CrcBytes(crc);
    Pow256Widths();
    LittleEndianRoundTrip(MAGIC, 4);
    LittleEndianRoundTrip(EVENT_SIZE, 4);
    CrcBytesRoundTrip(crc);
  }

  lemma {:induction false} TurnShift(f: seq<byte>, at: nat, n: nat)
    requires at + HEADER <= n <= |f|
    ensures Read32(f, at) == Read32(f[at..n], 0) && f[at + 4] == f[at..n][4]
    ensures Read32(f, at + 5) == Read32(f[at..n], 5) && Read32(f, at + 9) == Read32(f[at..n], 9)
  {
    SliceSlice(f, at, n, 0, 4);
    SliceSlice(f, at, n, 5, 9);
    SliceSlice(f, at, n, 9, 13);
  }

  lemma {:induction false} WholeRecordTurn(f: seq<byte>, at: nat, e: Event)
    requires at + RECORD <= |f| && f[at..at + RECORD] == Record(e)
    ensures TurnAt(f, at) == Consumed(Some(e), at + RECORD)
  {
    var r := f[at..at + RECORD];
    TurnShift(f, at, at + RECORD);
    assert r[..RECORD] == r == Record(e)[..RECORD];
    HeaderFields(r, e, RECORD);
    assert f[at + HEADER..at + RECORD] == r[HEADER..] == EncodeEvent(e);
    EventRoundTrip(e);
  }

  lemma {:induction false} TornRecordTurn(f: seq<byte>, at: nat, e: Event)
    requires at <= |f| < at + RECORD && f[at..] == Record(e)[..|f| - at]
    ensures !TurnAt(f, at).Consumed?
  {
    if at + HEADER <= |f| {
      var r := f[at..|f|];
      TurnShift(f, at, |f|);
      assert r[..|f| - at] == r;
      HeaderFields(r, e, |f| - at);
    }
  }

  /** Records are read back in order with their offsets, up to whatever stops the loop. */
  lemma {:induction false} ReadRecords(f: seq<byte>, es: seq<Event>, i: nat)
    requires Holds(f, es) && i <= |es|
    ensures var rest := ReadFrom(f, RECORD * |es|);
            ReadFrom(f, RECORD * i) == rest.(records := Offsets(es[i..], i) + rest.records)
    decreases |es| - i
  {
    hide TurnAt;
    hide Record;
    if i < |es| {
      WholeRecordTurn(f, RECORD * i, es[i]);
      ReadRecords(f, es, i + 1);
      assert Offsets(es[i..], i) == [WalRecord(es[i], RECORD * i)] + Offsets(es[i + 1..], i + 1);
    } else {
      assert Offsets(es[i..], i) == [];
    }
  }

  /** A segment cut inside its last record still reads back as its whole records. */
  lemma {:induction false} ReadTornSegment(f: seq<byte>, es: seq<Event>)
    requires TornAfter(f, es)
    ensures ReadFrom(f, 0).records == Offsets(es, 0)
    ensures ReadFrom(f, 0).cleanEnd == RECORD * |es|
    ensures ReadFrom(f, 0).cleanEnd == RECORD * (|f| / RECORD)
    ensures ReadFrom(f, 0).torn <==> |f| % RECORD != 0
  {
    hide TurnAt;
    hide Record;
    ReadRecords(f, es, 0);
    assert es[0..] == es;
    var e :| f[RECORD * |es|..] == Record(e)[..|f| - RECORD * |es|];
    TornRecordTurn(f, RECORD * |es|, e);
  }

  /**
   The torn-byte figure is not the size of the tail: a tail that still shows a
   whole header is counted twice, a shorter one once.
   */
  lemma {:induction false} TornBytesCount(f: seq<byte>, at: nat)
    requires at <= |f|
    ensures var s := ReadFrom(f, at);
            s.tornBytes == (if s.cleanEnd + HEADER <= |f| then 2 * (|f| - s.cleanEnd) else |f| - s.cleanEnd)
    decreases |f| - at
  {
    hide TurnAt;
    if TurnAt(f, at).Consumed? {
      TornBytesCount(f, TurnAt(f, at).next);
    }
  }

  lemma {:induction false} AppendHolds(f: seq<byte>, es: seq<Event>, e: Event)
    requires Holds(f, es) && |f| == RECORD * |es|
    ensures Holds(f + Record(e), es + [e])
  {
    hide Record;
    var g := f + Record(e);
    forall j | 0 <= j < |es| + 1 ensures g[RECORD * j..RECORD * j + RECORD] == Record((es + [e])[j]) {
      if j < |es| {
        assert g[RECORD * j..RECORD * j + RECORD] == f[RECORD * j..RECORD * j + RECORD];
      }
    }
  }

  lemma {:induction false} CleanIsTornAfter(f: seq<byte>, es: seq<Event>, e: Event)
    requires Holds(f, es) && |f| == RECORD * |es|
    ensures TornAfter(f, es)
  {
    assert f[RECORD * |es|..] == [] == Record(e)[..0];
  }

  /** Cutting a segment at any byte keeps exactly the records that lie wholly before the cut. */
  lemma {:induction false} CutSegment(f: seq<byte>, es: seq<Event>, cut: nat)
    requires TornAfter(f, es) && cut <= |f|
    ensures cut / RECORD <= |es|
    ensures TornAfter(f[..cut], es[..cut / RECORD])
  {
    hide Record;
    var n := cut / RECORD;
    var g := f[..cut];
    forall j | 0 <= j < n ensures g[RECORD * j..RECORD * j + RECORD] == Record(es[j]) {
      assert g[RECORD * j..RECORD * j + RECORD] == f[RECORD * j..RECORD * j + RECORD];
    }
    var k := cut - RECORD * n;
    var e :| f[RECORD * |es|..] == Record(e)[..|f| - RECORD * |es|];
    var whole := if n < |es| then es[n] else e;
    if n < |es| {
      assert g[RECORD * n..] == f[RECORD * n..RECORD * n + RECORD][..k];
    } else {
      assert g[RECORD * n..] == f[RECORD * n..][..k];
      assert Record(e)[..|f| - RECORD * |es|][..k] == Record(e)[..k];
    }
    assert g[RECORD * n..] == Record(whole)[..k];
  }

  // ---- corruption ----

  /**
   A stored record whose payload was changed inside four consecutive bytes is
   rejected, so replay of the segment ends exactly before it.
   */
  lemma {:induction false} PayloadCorruptionDetected(f: seq<byte>, es: seq<Event>, e: Event, p: seq<byte>, u: seq<byte>,
      v: seq<byte>, q: seq<byte>)
    requires Holds(f, es) && RECORD * |es| + RECORD <= |f|
    requires p + u + q == EncodeEvent(e) && |u| == |v| <= 4 && u != v
    requires f[RECORD * |es|..RECORD * |es| + RECORD] == Record(e)[..HEADER] + (p + v + q)
    ensures ReadFrom(f, 0).records == Offsets(es, 0)
    ensures ReadFrom(f, 0).cleanEnd == RECORD * |es| && ReadFrom(f, 0).torn
  {
    hide Record;
    hide TurnAt;
    var at := RECORD * |es|;
    CorruptPayloadTurn(f, at, e, p, u, v, q);
    ReadRecords(f, es, 0);
    assert es[0..] == es;
  }

  lemma {:induction false} CorruptPayloadTurn(f: seq<byte>, at: nat, e: Event, p: seq<byte>, u: seq<byte>, v: seq<byte>,
      q: seq<byte>)
    requires at + RECORD <= |f|
    requires p + u + q == EncodeEvent(e) && |u| == |v| <= 4 && u != v
    requires f[at..at + RECORD] == Record(e)[..HEADER] + (p + v + q)
    ensures TurnAt(f, at) == Rejected
  {
    hide Crc;
    var r := f[at..at + RECORD];
    var head := HeaderForCrc(EVENT_SIZE);
    TurnShift(f, at, at + RECORD);
    assert Record(e)[..HEADER][..HEADER] == Record(e)[..HEADER];
    HeaderFields(r[..HEADER], e, HEADER);
    TurnShift(r, 0, HEADER);
    assert f[at + HEADER..at + RECORD] == r[HEADER..] == p + v + q;
    WalCrcIsOneStream(head, EncodeEvent(e));
    WalCrcIsOneStream(head, p + v + q);
    assert head + (p + u + q) == (head + p) + u + q;
    assert head + (p + v + q) == (head + p) + v + q;
    BurstDetected(head + p, u, v, q, Zeros(32));
    if ValueOf(WalCrc(head, p + v + q)) == ValueOf(WalCrc(head, EncodeEvent(e))) {
      ValueInjective(WalCrc(head, p + v + q), WalCrc(head, EncodeEvent(e)));
    }
  }

  // ---- the writer, on values ----

  /** A directory with the segment the writer has open. */
  datatype Log = Log(dir: Dir, segment: nat)

  function OpenSegment(dir: Dir, id: nat): Log {
    Log(if id in dir then dir else dir[id := []], id)
  }

  function Rotate(l: Log): Log {
    OpenSegment(l.dir, l.segment + 1)
  }

  function AppendRecord(l: Log, e: Event, maxBytes: nat): Log
    requires l.segment in l.dir
  {
    var file := l.dir[l.segment] + Record(e);
    var written := l.(dir := l.dir[l.segment := file]);
    if |file| >= maxBytes then Rotate(written) else written
  }

  function TruncateAndSeal(l: Log, cleanEnd: nat): Log
    requires l.segment in l.dir
  {
    Rotate(Truncate(l, cleanEnd))
  }

  function Truncate(l: Log, cleanEnd: nat): Log
    requires l.segment in l.dir
  {
    var file := l.dir[l.segment];
    if cleanEnd < |file| then l.(dir := l.dir[l.segment := file[..cleanEnd]]) else l
  }

  /** An append changes the open segment only, by its 78 bytes, and opens the next one exactly when the segment has then
      reached the limit. */
  lemma {:induction false} AppendLeaves(l: Log, e: Event, maxBytes: nat)
    requires l.segment in l.dir
    ensures var t, n := AppendRecord(l, e, maxBytes), |l.dir[l.segment]|;
            && t.segment == (if n + 78 >= maxBytes then l.segment + 1 else l.segment) && t.segment in t.dir
            && t.dir[l.segment] == l.dir[l.segment] + Record(e)
            && (forall id :: id in l.dir && id != l.segment ==> id in t.dir && t.dir[id] == l.dir[id])
            && forall id :: id in t.dir && id !in l.dir ==> id == t.segment && t.dir[id] == []
  {
    hide Record;
  }

  /** Sealing cuts the open segment at the clean end, leaves the others alone, and opens the next one. */
  lemma {:induction false} SealLeaves(l: Log, cleanEnd: nat)
    requires l.segment in l.dir
    ensures var t, f := TruncateAndSeal(l, cleanEnd), l.dir[l.segment];
            && t.segment == l.segment + 1 && t.segment in t.dir
            && t.dir[l.segment] == (if cleanEnd < |f| then f[..cleanEnd] else f)
            && (forall id :: id in l.dir && id != l.segment ==> id in t.dir && t.dir[id] == l.dir[id])
            && forall id :: id in t.dir && id !in l.dir ==> id == t.segment && t.dir[id] == []
  {
  }

  // ---- the writer, as an object over a directory ----

  class Directory {
    var files: Dir

    constructor ()
      ensures files == map[]
    {
      files := map[];
    }
  }

  class Writer {
    const disk: Directory
    const maxSegmentBytes: nat
    var segmentId: nat
    var currentOffset: nat
    var bytesWritten: nat

    ghost predicate Valid()
      reads this, disk
    {
      segmentId in disk.files && currentOffset == |disk.files[segmentId]|
    }

    ghost function State(): Log
      reads this, disk
    {
      Log(disk.files, segmentId)
    }

    constructor (d: Directory, maxBytes: nat)
      modifies d
      ensures disk == d && maxSegmentBytes == maxBytes && bytesWritten == 0 && Valid()
      ensures exists m: nat :: IsMaxId(old(d.files), m) && State() == OpenSegment(old(d.files), if m > 0 then m else 1)
    {
      disk := d;
      maxSegmentBytes := maxBytes;
      bytesWritten, currentOffset := 0, 0;
      segmentId := 1;
      new;
      var m := MaxId(d.files);
      Open(if m > 0 then m else 1);
    }

    method Open(id: nat)
      modifies this`segmentId, this`currentOffset, disk
      ensures Valid() && State() == OpenSegment(old(disk.files), id)
    {
      if id !in disk.files {
        disk.files := disk.files[id := []];
      }
      currentOffset := |disk.files[id]|;
      segmentId := id;
    }

    method RotateSegment()
      requires Valid()
      modifies this`segmentId, this`currentOffset, disk
      ensures Valid() && State() == Rotate(old(State()))
    {
      segmentId := segmentId + 1;
      currentOffset := 0;
      Open(segmentId);
    }

    /** `truncate_and_seal`; plain `seal` is the case where nothing is cut. */
    method Seal(cleanEnd: nat)
      requires Valid()
      modifies this`segmentId, this`currentOffset, disk
      ensures Valid() && State() == TruncateAndSeal(old(State()), cleanEnd)
    {
      if cleanEnd < currentOffset {
        disk.files := disk.files[segmentId := disk.files[segmentId][..cleanEnd]];
        currentOffset := cleanEnd;
      }
      RotateSegment();
    }

    method Append(e: Event) returns (fileOffset: nat, segment: nat)
      requires Valid()
      modifies this`segmentId, this`currentOffset, this`bytesWritten, disk
      ensures Valid() && State() == AppendRecord(old(State()), e, maxSegmentBytes)
      ensures segment == old(segmentId) && fileOffset == old(|disk.files[segmentId]|)
      ensures segment in disk.files && fileOffset + RECORD == |disk.files[segment]|
      ensures disk.files[segment][fileOffset..] == Record(e)
      ensures bytesWritten == old(bytesWritten) + RECORD
    {
      var payload := EncodeEvent(e);
      var crc := WalCrc(HeaderForCrc(|payload|), payload);
      var rec := EncodeLE(MAGIC, 4) + HeaderForCrc(|payload|) + CrcBytes(crc) + payload;
      segment, fileOffset := segmentId, currentOffset;
      disk.files := disk.files[segmentId := disk.files[segmentId] + rec];
      currentOffset := currentOffset + |rec|;
      bytesWritten := bytesWritten + |rec|;
      if currentOffset >= maxSegmentBytes {
        RotateSegment();
      }
    }
  }
}
