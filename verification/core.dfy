/** Keys and events: their order and their on-disk encodings. */
module Core {
  import opened Bytes

  /** Primary key, ordered by symbol, then time, then sequence. */
  datatype Key = Key(sym: u32, ts: u64, seqId: u64)

  const MIN_KEY: Key := Key(0, 0, 0)
  const MAX_KEY: Key := Key(0xFFFF_FFFF, 0xFFFF_FFFF_FFFF_FFFF, 0xFFFF_FFFF_FFFF_FFFF)

  /** Any byte can come back from disk, so an event type is a byte. */
  const TOMBSTONE: byte := 0xFF

  datatype Event = Event(
    ts: u64, sym: u32, seqId: u64, kind: byte,
    price: i64, bidPx: i64, askPx: i64,
    quantity: u32, bidQty: u32, askQty: u32, orderId: u64)

  function KeyOf(e: Event): Key {
    Key(e.sym, e.ts, e.seqId)
  }

  predicate Less(a: Key, b: Key) {
    a.sym < b.sym || (a.sym == b.sym && (a.ts < b.ts || (a.ts == b.ts && a.seqId < b.seqId)))
  }

  lemma {:induction false} LessTransitive(a: Key, b: Key, c: Key)
    requires Less(a, b) && Less(b, c)
    ensures Less(a, c)
  {
  }

  lemma {:induction false} LessTotal(a: Key, b: Key)
    ensures Less(a, b) || a == b || Less(b, a)
    ensures !(Less(a, b) && Less(b, a)) && !Less(a, a)
  {
  }

  predicate AtMost(a: Key, b: Key) {
    !Less(b, a)
  }

  // ---- key codec ----

  function EncodeKey(k: Key): (s: seq<byte>)
    ensures |s| == 20
  {
    EncodeBE(k.sym, 4) + EncodeBE(k.ts, 8) + EncodeBE(k.seqId, 8)
  }

  function DecodeKey(s: seq<byte>): Key
    requires |s| == 20
  {
    Pow256Widths();
    Key(DecodeBE(s[..4]), DecodeBE(s[4..12]), DecodeBE(s[12..]))
  }

  lemma {:induction false} KeyRoundTrip(k: Key)
    ensures DecodeKey(EncodeKey(k)) == k
  {
    Pow256Widths();
    BigEndianRoundTrip(k.sym, 4);
    BigEndianRoundTrip(k.ts, 8);
    BigEndianRoundTrip(k.seqId, 8);
    var s := EncodeKey(k);
    assert s[..4] == EncodeBE(k.sym, 4);
    assert s[4..12] == EncodeBE(k.ts, 8);
    assert s[12..] == EncodeBE(k.seqId, 8);
  }

  /** Encoded keys compare byte by byte exactly as keys do. */
  lemma {:induction false} KeyBytesOrder(a: Key, b: Key)
    ensures LexLess(EncodeKey(a), EncodeKey(b)) <==> Less(a, b)
  {
    Pow256Widths();
    BigEndianOrder(a.sym, b.sym, 4);
    BigEndianOrder(a.ts, b.ts, 8);
    BigEndianOrder(a.seqId, b.seqId, 8);
    LexLessConcat(EncodeBE(a.sym, 4) + EncodeBE(a.ts, 8), EncodeBE(b.sym, 4) + EncodeBE(b.ts, 8),
                  EncodeBE(a.seqId, 8), EncodeBE(b.seqId, 8));
    LexLessConcat(EncodeBE(a.sym, 4), EncodeBE(b.sym, 4), EncodeBE(a.ts, 8), EncodeBE(b.ts, 8));
    BigEndianInjective(a.sym, b.sym, 4);
    BigEndianInjective(a.ts, b.ts, 8);
    var p, q := EncodeBE(a.sym, 4) + EncodeBE(a.ts, 8), EncodeBE(b.sym, 4) + EncodeBE(b.ts, 8);
    assert p[..4] == EncodeBE(a.sym, 4) && p[4..] == EncodeBE(a.ts, 8);
    assert q[..4] == EncodeBE(b.sym, 4) && q[4..] == EncodeBE(b.ts, 8);
  }

  lemma {:induction false} BigEndianInjective(v: nat, w: nat, n: nat)
    requires v < Pow256(n) && w < Pow256(n)
    ensures EncodeBE(v, n) == EncodeBE(w, n) <==> v == w
  {
    BigEndianRoundTrip(v, n);
    BigEndianRoundTrip(w, n);
  }

  // ---- event codec ----

  /** `static_cast<uint64_t>` of a signed value and back: two's complement. */
  function ToUnsigned(x: i64): u64 {
    if x < 0 then x + TWO_64 else x
  }

  function ToSigned(x: u64): i64 {
    if x < 0x8000_0000_0000_0000 then x else x - TWO_64
  }

  const EVENT_SIZE: nat := 65

  function EncodeEvent(e: Event): (s: seq<byte>)
    ensures |s| == EVENT_SIZE
  {
    EncodeLE(e.ts, 8) + EncodeLE(e.sym, 4) + EncodeLE(e.seqId, 8) + [e.kind]
    + EncodeLE(ToUnsigned(e.price), 8) + EncodeLE(ToUnsigned(e.bidPx), 8) + EncodeLE(ToUnsigned(e.askPx), 8)
    + EncodeLE(e.quantity, 4) + EncodeLE(e.bidQty, 4) + EncodeLE(e.askQty, 4) + EncodeLE(e.orderId, 8)
  }

  function Read32(s: seq<byte>, at: nat): u32
    requires at + 4 <= |s|
  {
    Pow256Widths();
    DecodeLE(s[at..at + 4])
  }

  function Read64(s: seq<byte>, at: nat): u64
    requires at + 8 <= |s|
  {
    Pow256Widths();
    DecodeLE(s[at..at + 8])
  }

  function DecodeEvent(s: seq<byte>): Event
    requires |s| == EVENT_SIZE
  {
    Event(Read64(s, 0), Read32(s, 8), Read64(s, 12), s[20],
          ToSigned(Read64(s, 21)), ToSigned(Read64(s, 29)), ToSigned(Read64(s, 37)),
          Read32(s, 45), Read32(s, 49), Read32(s, 53), Read64(s, 57))
  }

  /** A field written little-endian reads back from wherever it lies. */
  lemma {:induction false} Read32From(s: seq<byte>, at: nat, v: u32)
    requires at + 4 <= |s| && s[at..at + 4] == EncodeLE(v, 4)
    ensures Read32(s, at) == v
  {
    Pow256Widths();
    LittleEndianRoundTrip(v, 4);
  }

  lemma {:induction false} Read64From(s: seq<byte>, at: nat, v: u64)
    requires at + 8 <= |s| && s[at..at + 8] == EncodeLE(v, 8)
    ensures Read64(s, at) == v
  {
    Pow256Widths();
    LittleEndianRoundTrip(v, 8);
  }

  lemma {:induction false} EventRoundTrip(e: Event)
    ensures DecodeEvent(EncodeEvent(e)) == e
  {
    var s := EncodeEvent(e);
    Pow256Widths();
    assert s[0..8] == EncodeLE(e.ts, 8);
    assert s[8..12] == EncodeLE(e.sym, 4);
    assert s[12..20] == EncodeLE(e.seqId, 8);
    assert s[21..29] == EncodeLE(ToUnsigned(e.price), 8);
    assert s[29..37] == EncodeLE(ToUnsigned(e.bidPx), 8);
    assert s[37..45] == EncodeLE(ToUnsigned(e.askPx), 8);
    assert s[45..49] == EncodeLE(e.quantity, 4);
    assert s[49..53] == EncodeLE(e.bidQty, 4);
    assert s[53..57] == EncodeLE(e.askQty, 4);
    assert s[57..65] == EncodeLE(e.orderId, 8);
    LittleEndianRoundTrip(e.ts, 8);
    LittleEndianRoundTrip(e.sym, 4);
    LittleEndianRoundTrip(e.seqId, 8);
    LittleEndianRoundTrip(ToUnsigned(e.price), 8);
    LittleEndianRoundTrip(ToUnsigned(e.bidPx), 8);
    LittleEndianRoundTrip(ToUnsigned(e.askPx), 8);
    LittleEndianRoundTrip(e.quantity, 4);
    LittleEndianRoundTrip(e.bidQty, 4);
    LittleEndianRoundTrip(e.askQty, 4);
    LittleEndianRoundTrip(e.orderId, 8);
  }

  // ---- the byte loops ----

  /** `write_le`: writes n bytes of v at offset `at`, shifting as it goes, and moves the pointer. */
  method WriteLE(buf: array<byte>, at: nat, v: nat, n: nat) returns (next: nat)
    requires at + n <= buf.Length
    modifies buf
    ensures next == at + n
    ensures buf[..next] == old(buf[..at]) + EncodeLE(v, n) && buf[next..] == old(buf[at + n..])
  {
    var rest := v;
    for i := 0 to n
      invariant buf[..at] == old(buf[..at]) && buf[at + n..] == old(buf[at + n..])
      invariant buf[at..at + i] + EncodeLE(rest, n - i) == EncodeLE(v, n)
    {
      buf[at + i] := rest % 256;
      EncodeLENext(rest, n - i - 1);
      assert buf[at..at + i + 1] == buf[at..at + i] + [rest % 256];
      rest := rest / 256;
    }
    next := at + n;
    assert buf[..next] == buf[..at] + buf[at..next];
  }

  /** `read_le`: adds up `p[i] << 8*i`. */
  method ReadLE(buf: array<byte>, at: nat, n: nat) returns (v: nat)
    requires at + n <= buf.Length
    ensures v == DecodeLE(buf[at..at + n])
  {
    v := 0;
    var weight: nat := 1;
    for i := 0 to n
      invariant weight == Pow256(i)
      invariant v == DecodeLE(buf[at..at + i])
    {
      DecodeSnoc(buf[at..at + i], buf[at + i]);
      assert buf[at..at + i + 1] == buf[at..at + i] + [buf[at + i]];
      v := v + buf[at + i] * weight;
      weight := 256 * weight;
    }
  }

  lemma {:induction false} DecodeSnoc(s: seq<byte>, b: byte)
    ensures DecodeLE(s + [b]) == DecodeLE(s) + b * Pow256(|s|)
  {
    if s == [] {
      assert s + [b] == [b] && [b][1..] == [];
    } else {
      DecodeSnoc(s[1..], b);
      assert (s + [b])[1..] == s[1..] + [b];
      assert 256 * (b * Pow256(|s| - 1)) == b * (256 * Pow256(|s| - 1));
    }
  }

  /** `Event::encode`: eleven fields through one moving pointer. */
  method Encode(e: Event) returns (buf: array<byte>)
    ensures fresh(buf) && buf[..] == EncodeEvent(e)
  {
    buf := new byte[EVENT_SIZE](_ => 0);
    var p := WriteLE(buf, 0, e.ts, 8);
    assert buf[..p] == EncodeLE(e.ts, 8);
    p := WriteLE(buf, p, e.sym, 4);
    p := WriteLE(buf, p, e.seqId, 8);
    p := WriteLE(buf, p, e.kind, 1);
    assert EncodeLE(e.kind, 1) == [e.kind];
    p := WriteLE(buf, p, ToUnsigned(e.price), 8);
    p := WriteLE(buf, p, ToUnsigned(e.bidPx), 8);
    p := WriteLE(buf, p, ToUnsigned(e.askPx), 8);
    p := WriteLE(buf, p, e.quantity, 4);
    p := WriteLE(buf, p, e.bidQty, 4);
    p := WriteLE(buf, p, e.askQty, 4);
    p := WriteLE(buf, p, e.orderId, 8);
    assert buf[..] == buf[..p];
  }
}
