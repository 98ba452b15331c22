/** Data blocks: a counted run of events with its key bounds and a checksum. */
module Blocks {
  import opened Bytes
  import opened Core
  import opened Crc32c
  import opened Wrappers
  import E = Events

  /** Count, two keys and checksum around the events. */
  const OVERHEAD: nat := 48

  // ---- encoding ----

  function EncodeEvents(es: seq<Event>): (s: seq<byte>)
    ensures |s| == EVENT_SIZE * |es|
  {
    if es == [] then [] else EncodeEvents(es[..|es| - 1]) + EncodeEvent(es[|es| - 1])
  }

  function Least(es: seq<Event>): (k: Key)
    requires es != []
    ensures exists i :: 0 <= i < |es| && KeyOf(es[i]) == k
    ensures forall i :: 0 <= i < |es| ==> AtMost(k, KeyOf(es[i]))
  {
    var last := KeyOf(es[|es| - 1]);
    if |es| == 1 then last
    else
      var k := Least(es[..|es| - 1]);
      if Less(last, k) then last else k
  }

  function Greatest(es: seq<Event>): (k: Key)
    requires es != []
    ensures exists i :: 0 <= i < |es| && KeyOf(es[i]) == k
    ensures forall i :: 0 <= i < |es| ==> AtMost(KeyOf(es[i]), k)
  {
    var last := KeyOf(es[|es| - 1]);
    if |es| == 1 then last
    else
      var k := Greatest(es[..|es| - 1]);
      if Less(k, last) then last else k
  }

  /** Everything the checksum covers; the count field is 32 bits wide. */
  function Body(es: seq<Event>): (s: seq<byte>)
    requires es != []
    ensures |s| == EVENT_SIZE * |es| + 44
  {
    EncodeLE(|es| % TWO_32, 4) + EncodeEvents(es) + EncodeKey(Least(es)) + EncodeKey(Greatest(es))
  }

  function EncodeBlock(es: seq<Event>): (s: seq<byte>)
    requires es != []
    ensures |s| == EVENT_SIZE * |es| + OVERHEAD
  {
    Body(es) + CrcBytes(Crc(Body(es), Zeros(32)))
  }

  // ---- decoding ----

  datatype Block = Block(events: seq<Event>, minKey: Key, maxKey: Key)

  /** n events back to back from offset `at`. */
  function DecodeEvents(d: seq<byte>, at: nat, n: nat): (es: seq<Event>)
    requires at + EVENT_SIZE * n <= |d|
    ensures |es| == n
  {
    seq(n, i requires 0 <= i < n => DecodeEvent(d[at + EVENT_SIZE * i..at + EVENT_SIZE * i + EVENT_SIZE]))
  }

  /** The size a block claims through its count field. */
  function ClaimedSize(d: seq<byte>): nat
    requires 4 <= |d|
  {
    EVENT_SIZE * Read32(d, 0) + OVERHEAD
  }

  function DecodeBlock(d: seq<byte>): Result<Block> {
    if |d| < OVERHEAD then Err
    else
      var n, size := Read32(d, 0), ClaimedSize(d);
      if |d| < size then Err
      else if Read32(d, size - 4) != ValueOf(Crc(d[..size - 4], Zeros(32))) then Err
      else Ok(Block(DecodeEvents(d, 4, n), DecodeKey(d[size - 44..size - 24]), DecodeKey(d[size - 24..size - 4])))
  }

  method Decode(d: seq<byte>) returns (r: Result<Block>)
    ensures r == DecodeBlock(d)
  {
    hide Crc;
    hide ValueOf;
    hide Read32;
    hide DecodeEvents;
    hide DecodeEvent;
    hide DecodeKey;
    if |d| < OVERHEAD {
      return Err;
    }
    var count := Read32(d, 0);
    var expected := EVENT_SIZE * count + OVERHEAD;
    if |d| < expected {
      return Err;
    }
    if Read32(d, expected - 4) != ValueOf(Crc(d[..expected - 4], Zeros(32))) {
      return Err;
    }
    var events, p := ReadEvents(d, 4, count);
    r := Ok(Block(events, DecodeKey(d[p..p + 20]), DecodeKey(d[p + 20..p + 40])));
  }

  method ReadEvents(d: seq<byte>, at: nat, count: nat) returns (events: seq<Event>, p: nat)
    requires at + EVENT_SIZE * count <= |d|
    ensures events == DecodeEvents(d, at, count) && p == at + EVENT_SIZE * count
  {
    events, p := [], at;
    for i := 0 to count
      invariant p == at + EVENT_SIZE * i && events == DecodeEvents(d, at, i)
    {
      NextDecoded(d, at, i);
      hide DecodeEvent;
      events := events + [DecodeEvent(d[p..p + EVENT_SIZE])];
      p := p + EVENT_SIZE;
    }
  }

  lemma {:induction false} NextDecoded(d: seq<byte>, at: nat, i: nat)
    requires at + EVENT_SIZE * i + EVENT_SIZE <= |d|
    ensures DecodeEvents(d, at, i + 1)
         == DecodeEvents(d, at, i) + [DecodeEvent(d[at + EVENT_SIZE * i..at + EVENT_SIZE * i + EVENT_SIZE])]
  {
    hide DecodeEvent;
  }

  /** A block whose checksum matches decodes to its fields. */
  lemma {:induction false} DecodesTo(d: seq<byte>, n: nat)
    requires 4 <= |d| && EVENT_SIZE * n + OVERHEAD <= |d| && Read32(d, 0) == n
    requires Read32(d, EVENT_SIZE * n + 44) == ValueOf(Crc(d[..EVENT_SIZE * n + 44], Zeros(32)))
    ensures DecodeBlock(d) == Ok(Block(DecodeEvents(d, 4, n),
                                       DecodeKey(d[4 + EVENT_SIZE * n..4 + EVENT_SIZE * n + 20]),
                                       DecodeKey(d[4 + EVENT_SIZE * n + 20..4 + EVENT_SIZE * n + 40])))
  {
    hide Read32;
    hide Crc;
    hide DecodeEvents;
    hide DecodeKey;
    hide ValueOf;
  }

  // ---- round trip ----

  lemma {:induction false} EncodedAt(es: seq<Event>, i: nat)
    requires i < |es|
    ensures EncodeEvents(es)[EVENT_SIZE * i..EVENT_SIZE * i + EVENT_SIZE] == EncodeEvent(es[i])
  {
    hide EncodeEvent;
    var n := |es| - 1;
    if i < n {
      EncodedAt(es[..n], i);
      assert EncodeEvents(es)[EVENT_SIZE * i..EVENT_SIZE * i + EVENT_SIZE]
          == EncodeEvents(es[..n])[EVENT_SIZE * i..EVENT_SIZE * i + EVENT_SIZE];
    }
  }

  lemma {:induction false} EventsRoundTrip(head: seq<byte>, es: seq<Event>, tail: seq<byte>)
    ensures DecodeEvents(head + EncodeEvents(es) + tail, |head|, |es|) == es
  {
    hide EncodeEvents;
    hide EncodeEvent;
    hide DecodeEvent;
    var d, at := head + EncodeEvents(es) + tail, |head|;
    forall i | 0 <= i < |es| ensures DecodeEvent(d[at + EVENT_SIZE * i..at + EVENT_SIZE * i + EVENT_SIZE]) == es[i] {
      EncodedAt(es, i);
      assert d[at + EVENT_SIZE * i..at + EVENT_SIZE * i + EVENT_SIZE]
          == EncodeEvents(es)[EVENT_SIZE * i..EVENT_SIZE * i + EVENT_SIZE];
      EventRoundTrip(es[i]);
    }
  }

  /** Where the fields of a block lie. */
  lemma {:induction false} Fields(front: seq<byte>, events: seq<byte>, low: seq<byte>, high: seq<byte>, crc: seq<byte>,
      tail: seq<byte>)
    requires |front| == 4 && |low| == |high| == 20 && |crc| == 4
    ensures var d, n := front + events + low + high + crc + tail, |events|;
            && d[0..4] == front && d[..n + 44] == front + events + low + high
            && d[4 + n..4 + n + 20] == low && d[4 + n + 20..4 + n + 40] == high
            && d[n + 44..n + 44 + 4] == crc
            && d == front + events + (low + high + crc + tail)
  {
  }

  lemma {:induction false} BlockLayout(es: seq<Event>)
    requires es != [] && |es| < TWO_32
    ensures Body(es) == EncodeLE(|es|, 4) + EncodeEvents(es) + EncodeKey(Least(es)) + EncodeKey(Greatest(es))
    ensures EncodeBlock(es) == Body(es) + CrcBytes(Crc(Body(es), Zeros(32)))
  {
    hide Crc;
    hide EncodeEvents;
    hide EncodeKey;
    hide EncodeLE;
  }

  /** The fields of the block of es stand at their places in d, under this checksum. */
  ghost predicate Framed(d: seq<byte>, es: seq<Event>, crc: Word) {
    var n := EVENT_SIZE * |es|;
    && n + OVERHEAD <= |d| && es != [] && |es| < TWO_32
    && d[0..4] == EncodeLE(|es|, 4) && crc == Crc(d[..n + 44], Zeros(32))
    && d[4 + n..4 + n + 20] == EncodeKey(Least(es)) && d[4 + n + 20..4 + n + 40] == EncodeKey(Greatest(es))
    && d[n + 44..n + 44 + 4] == CrcBytes(crc)
    && DecodeEvents(d, 4, |es|) == es
  }

  lemma {:induction false} BlockFields(es: seq<Event>, tail: seq<byte>)
    requires es != [] && |es| < TWO_32
    ensures Framed(EncodeBlock(es) + tail, es, Crc(Body(es), Zeros(32)))
  {
    hide Crc;
    hide EncodeEvents;
    hide DecodeEvents;
    hide EncodeKey;
    hide EncodeLE;
    hide CrcBytes;
    hide Least;
    hide Greatest;
    var crc := CrcBytes(Crc(Body(es), Zeros(32)));
    var front, low, high := EncodeLE(|es|, 4), EncodeKey(Least(es)), EncodeKey(Greatest(es));
    BlockLayout(es);
    hide Body;
    hide EncodeBlock;
    Fields(front, EncodeEvents(es), low, high, crc, tail);
    EventsRoundTrip(front, es, low + high + crc + tail);
  }

  /** What is written is what is read, whatever follows the block. */
  lemma {:induction false} BlockRoundTrip(es: seq<Event>, tail: seq<byte>)
    requires es != [] && |es| < TWO_32
    ensures DecodeBlock(EncodeBlock(es) + tail) == Ok(Block(es, Least(es), Greatest(es)))
  {
    hide *;
    BlockFields(es, tail);
    FieldsDecode(EncodeBlock(es) + tail, es, Crc(Body(es), Zeros(32)));
  }

  lemma {:induction false} FieldsDecode(d: seq<byte>, es: seq<Event>, crc: Word)
    requires Framed(d, es, crc) && es != []
    ensures DecodeBlock(d) == Ok(Block(es, Least(es), Greatest(es)))
  {
    hide *;
    FrameReads(d, es, crc);
    LowReads(d, es, crc);
    HighReads(d, es, crc);
    DecodesTo(d, |es|);
  }

  lemma {:induction false} FrameReads(d: seq<byte>, es: seq<Event>, crc: Word)
    requires Framed(d, es, crc)
    ensures 4 <= |d| && EVENT_SIZE * |es| + OVERHEAD <= |d| && DecodeEvents(d, 4, |es|) == es
    ensures Read32(d, 0) == |es|
    ensures Read32(d, EVENT_SIZE * |es| + 44) == ValueOf(Crc(d[..EVENT_SIZE * |es| + 44], Zeros(32)))
  {
    hide Crc;
    hide Read32;
    hide ValueOf;
    hide DecodeEvents;
    BlockReads(d, |es|, crc);
  }

  lemma {:induction false} LowReads(d: seq<byte>, es: seq<Event>, crc: Word)
    requires Framed(d, es, crc) && es != [] && EVENT_SIZE * |es| + OVERHEAD <= |d|
    ensures DecodeKey(d[4 + EVENT_SIZE * |es|..4 + EVENT_SIZE * |es| + 20]) == Least(es)
  {
    hide DecodeKey;
    hide Least;
    KeyRoundTrip(Least(es));
  }

  lemma {:induction false} HighReads(d: seq<byte>, es: seq<Event>, crc: Word)
    requires Framed(d, es, crc) && es != [] && EVENT_SIZE * |es| + OVERHEAD <= |d|
    ensures DecodeKey(d[4 + EVENT_SIZE * |es| + 20..4 + EVENT_SIZE * |es| + 40]) == Greatest(es)
  {
    hide DecodeKey;
    hide Greatest;
    KeyRoundTrip(Greatest(es));
  }

  lemma {:induction false} BlockReads(d: seq<byte>, n: nat, crc: Word)
    requires n < TWO_32 && EVENT_SIZE * n + OVERHEAD <= |d|
    requires d[0..4] == EncodeLE(n, 4) && d[EVENT_SIZE * n + 44..EVENT_SIZE * n + 44 + 4] == CrcBytes(crc)
    ensures Read32(d, 0) == n && Read32(d, EVENT_SIZE * n + 44) == ValueOf(crc)
  {
    Read32From(d, 0, n);
    var stored := ReadCrc(CrcBytes(crc), crc);
    Read32From(d, EVENT_SIZE * n + 44, stored);
  }

  /** A change confined to four consecutive bytes behind the count is refused. */
  lemma {:induction false} BlockCorruptionDetected(es: seq<Event>, p: seq<byte>, u: seq<byte>, v: seq<byte>,
      q: seq<byte>, tail: seq<byte>)
    requires es != [] && |es| < TWO_32
    requires Body(es) == p + u + q && 4 <= |p| && |u| == |v| <= 4 && u != v
    ensures DecodeBlock(p + v + q + CrcBytes(Crc(Body(es), Zeros(32))) + tail) == Err
  {
    hide *;
    var crc := Crc(Body(es), Zeros(32));
    BurstDetected(p, u, v, q, Zeros(32));
    CorruptFields(es, p, u, v, q, crc, tail);
    RefusesStored(p + v + q + CrcBytes(crc) + tail, |es|, crc);
  }

  lemma {:induction false} RefusesStored(d: seq<byte>, n: nat, crc: Word)
    requires n < TWO_32 && EVENT_SIZE * n + OVERHEAD <= |d|
    requires d[0..4] == EncodeLE(n, 4) && d[EVENT_SIZE * n + 44..EVENT_SIZE * n + 44 + 4] == CrcBytes(crc)
    requires Crc(d[..EVENT_SIZE * n + 44], Zeros(32)) != crc
    ensures DecodeBlock(d) == Err
  {
    var other := Crc(d[..EVENT_SIZE * n + 44], Zeros(32));
    hide *;
    BlockReads(d, n, crc);
    if ValueOf(other) == ValueOf(crc) {
      ValueInjective(other, crc);
    }
    RefusesMismatch(d, n);
  }

  lemma {:induction false} CorruptFields(es: seq<Event>, p: seq<byte>, u: seq<byte>, v: seq<byte>, q: seq<byte>,
      crc: Word, tail: seq<byte>)
    requires es != [] && |es| < TWO_32 && Body(es) == p + u + q && 4 <= |p| && |u| == |v|
    ensures var d, n := p + v + q + CrcBytes(crc) + tail, EVENT_SIZE * |es|;
            && n + OVERHEAD <= |d| && d[0..4] == EncodeLE(|es|, 4) && d[..n + 44] == p + v + q
            && d[n + 44..n + 44 + 4] == CrcBytes(crc)
  {
    hide *;
    var d := p + v + q + CrcBytes(crc) + tail;
    BlockLayout(es);
    assert Body(es)[0..4] == EncodeLE(|es|, 4);
    assert d[0..4] == p[0..4] == Body(es)[0..4];
  }

  lemma {:induction false} RefusesMismatch(d: seq<byte>, n: nat)
    requires EVENT_SIZE * n + OVERHEAD <= |d| && Read32(d, 0) == n
    requires Read32(d, EVENT_SIZE * n + 44) != ValueOf(Crc(d[..EVENT_SIZE * n + 44], Zeros(32)))
    ensures DecodeBlock(d) == Err
  {
    hide Read32;
    hide Crc;
    hide ValueOf;
    hide DecodeEvents;
    hide DecodeKey;
  }

  // ---- building ----

  /** A block takes an event while it stays within the target; it always takes the first. */
  predicate HasRoom(es: seq<Event>, target: nat) {
    es == [] || EVENT_SIZE * |es| + OVERHEAD + EVENT_SIZE <= target
  }

  class BlockBuilder {
    const target: nat
    var events: seq<Event>

    constructor (targetBytes: nat)
      ensures target == targetBytes && events == []
    {
      target, events := targetBytes, [];
    }

    method Add(e: Event) returns (ok: bool)
      modifies this
      ensures ok == HasRoom(old(events), target)
      ensures events == if ok then old(events) + [e] else old(events)
    {
      var currentSize := 4 + |events| * EVENT_SIZE + 20 * 2 + 4;
      if events != [] && currentSize + EVENT_SIZE > target {
        return false;
      }
      events := events + [e];
      return true;
    }

    /** Serialises the block; the bounds are searched for, whatever the order of the events. */
    method Finish() returns (buf: seq<byte>)
      ensures buf == if events == [] then [] else EncodeBlock(events)
    {
      if events == [] {
        return [];
      }
      var minKey, maxKey := FindBounds(events);
      var encoded := Concatenate(events);
      var data := EncodeLE(|events| % TWO_32, 4) + encoded + EncodeKey(minKey) + EncodeKey(maxKey);
      buf := data + CrcBytes(Crc(data, Zeros(32)));
    }

    static method FindBounds(es: seq<Event>) returns (minKey: Key, maxKey: Key)
      requires es != []
      ensures minKey == Least(es) && maxKey == Greatest(es)
    {
      minKey, maxKey := KeyOf(es[0]), KeyOf(es[|es| - 1]);
      ghost var low, high := 0, |es| - 1;
      for i := 0 to |es|
        invariant 0 <= low < |es| && minKey == KeyOf(es[low]) && forall j :: 0 <= j < i ==> AtMost(minKey, KeyOf(es[j]))
        invariant 0 <= high < |es| && maxKey == KeyOf(es[high])
                  && forall j :: 0 <= j < i ==> AtMost(KeyOf(es[j]), maxKey)
      {
        var k := KeyOf(es[i]);
        if Less(k, minKey) {
          minKey, low := k, i;
        }
        if Less(maxKey, k) {
          maxKey, high := k, i;
        }
      }
      assert AtMost(Least(es), minKey) && AtMost(maxKey, Greatest(es));
      LessTotal(Least(es), minKey);
      LessTotal(Greatest(es), maxKey);
    }

    static method Concatenate(es: seq<Event>) returns (s: seq<byte>)
      ensures s == EncodeEvents(es)
    {
      hide EncodeEvent;
      s := [];
      for i := 0 to |es|
        invariant s == EncodeEvents(es[..i])
      {
        assert es[..i + 1][..i] == es[..i];
        s := s + EncodeEvent(es[i]);
      }
      assert es[..|es|] == es;
    }

    method Reset()
      modifies this
      ensures events == []
    {
      events := [];
    }
  }

  // ---- scanning ----

  /** What a block scan reaches: it passes over keys below lo and ends at the first key above hi. */
  function Reached(es: seq<Event>, lo: Key, hi: Key): seq<Event> {
    if es == [] then []
    else if Less(KeyOf(es[0]), lo) then Reached(es[1..], lo, hi)
    else if Less(hi, KeyOf(es[0])) then []
    else [es[0]] + Reached(es[1..], lo, hi)
  }

  /** On a sorted block that is the whole range. */
  lemma {:induction false} ReachedIsInRange(es: seq<Event>, lo: Key, hi: Key)
    requires E.Sorted(es)
    ensures Reached(es, lo, hi) == E.InRange(es, lo, hi)
  {
    if es != [] {
      if !Less(KeyOf(es[0]), lo) && Less(hi, KeyOf(es[0])) {
        forall i | 0 <= i < |es| ensures !E.Within(es[i], lo, hi) {
          if i > 0 {
            assert Less(KeyOf(es[0]), KeyOf(es[i]));
          }
        }
        E.InRangeNone(es, lo, hi);
      } else {
        ReachedIsInRange(es[1..], lo, hi);
      }
    }
  }

  method ScanBlock<S>(es: seq<Event>, lo: Key, hi: Key, init: S, f: (S, Event) -> E.Turn<S>) returns (t: E.Turn<S>)
    ensures t == E.Feed(Reached(es, lo, hi), init, f)
  {
    hide Less;
    t := E.Turn(init, true);
    for i := 0 to |es|
      invariant t.more && E.Feed(Reached(es[i..], lo, hi), t.state, f) == E.Feed(Reached(es, lo, hi), init, f)
    {
      var k := KeyOf(es[i]);
      assert es[i..][0] == es[i] && es[i..][1..] == es[i + 1..];
      if Less(k, lo) {
        continue;
      }
      if Less(hi, k) {
        break;
      }
      t := f(t.state, es[i]);
      if !t.more {
        return;
      }
    }
  }
}
