/** Where every field of every format lies, byte by byte and in plain numbers, and what a reader refuses. */
module Formats {
  import opened Bytes
  import opened Core
  import opened Crc32c
  import opened Wrappers
  import A = Arenas
  import B = Blocks
  import F = Bloom
  import K = SkipLists
  import L = Wal
  import M = SkipListSteps
  import N = SymbolTables
  import P = Paths
  import R = CompactionRuns
  import T = TableFormat
  import X = Indexes

  // ---- numbers in bytes ----

  /** Four bytes, the lowest first. */
  function Quad(a: int, b: int, c: int, d: int): int {
    a + 0x100 * b + 0x1_0000 * c + 0x100_0000 * d
  }

  /** Two bytes from this place on hold the number, lowest byte first. */
  predicate Holds16(s: seq<byte>, at: nat, v: int) {
    at + 2 <= |s| && v == Quad(s[at], s[at + 1], 0, 0)
  }

  predicate Holds32(s: seq<byte>, at: nat, v: int) {
    at + 4 <= |s| && v == Quad(s[at], s[at + 1], s[at + 2], s[at + 3])
  }

  predicate Holds64(s: seq<byte>, at: nat, v: int) {
    && at + 8 <= |s|
    && v == Quad(s[at], s[at + 1], s[at + 2], s[at + 3])
            + 0x1_0000_0000 * Quad(s[at + 4], s[at + 5], s[at + 6], s[at + 7])
  }

  /** Two's complement: a negative value is held as its sum with 2^64. */
  predicate HoldsSigned(s: seq<byte>, at: nat, x: int) {
    Holds64(s, at, if x < 0 then x + 0x1_0000_0000_0000_0000 else x)
  }

  /** Highest byte first. */
  predicate HoldsBig32(s: seq<byte>, at: nat, v: int) {
    at + 4 <= |s| && v == Quad(s[at + 3], s[at + 2], s[at + 1], s[at])
  }

  predicate HoldsBig64(s: seq<byte>, at: nat, v: int) {
    && at + 8 <= |s|
    && v == Quad(s[at + 7], s[at + 6], s[at + 5], s[at + 4])
            + 0x1_0000_0000 * Quad(s[at + 3], s[at + 2], s[at + 1], s[at])
  }

  lemma {:induction false} LowFirst(s: seq<byte>)
    ensures |s| == 2 ==> DecodeLE(s) == Quad(s[0], s[1], 0, 0)
    ensures |s| == 4 ==> DecodeLE(s) == Quad(s[0], s[1], s[2], s[3])
  {
    if |s| >= 1 {
      var a := s[1..];
      assert DecodeLE(s) == s[0] as int + 256 * DecodeLE(a);
      if |a| >= 1 {
        var b := a[1..];
        assert DecodeLE(a) == a[0] as int + 256 * DecodeLE(b);
        if |b| == 2 {
          assert DecodeLE(b) == b[0] as int + 256 * DecodeLE(b[1..]);
          assert DecodeLE(b[1..]) == b[1] as int + 256 * DecodeLE(b[1..][1..]);
        }
      }
    }
  }

  lemma {:induction false} JoinedLow(a: seq<byte>, b: seq<byte>)
    requires |a| == 4
    ensures DecodeLE(a + b) == DecodeLE(a) + 0x1_0000_0000 * DecodeLE(b)
  {
    var s := a + b;
    assert s[1..] == a[1..] + b && s[2..] == a[2..] + b && s[3..] == a[3..] + b && s[4..] == b;
    assert s[1..][1..] == s[2..] && s[2..][1..] == s[3..] && s[3..][1..] == s[4..];
    assert DecodeLE(s) == a[0] + 256 * DecodeLE(s[1..]);
    assert DecodeLE(s[1..]) == a[1] + 256 * DecodeLE(s[2..]);
    assert DecodeLE(s[2..]) == a[2] + 256 * DecodeLE(s[3..]);
    assert DecodeLE(s[3..]) == a[3] + 256 * DecodeLE(s[4..]);
    LowFirst(a);
    hide DecodeLE;
  }

  lemma {:induction false} HighFirst(s: seq<byte>)
    requires |s| == 4
    ensures DecodeBE(s) == Quad(s[3], s[2], s[1], s[0])
  {
    var a := s[..3];
    var b := a[..2];
    var c := b[..1];
    assert DecodeBE(s) == 256 * DecodeBE(a) + s[3];
    assert DecodeBE(a) == 256 * DecodeBE(b) + a[2];
    assert DecodeBE(b) == 256 * DecodeBE(c) + b[1];
    assert DecodeBE(c) == 256 * DecodeBE(c[..0]) + c[0];
    hide DecodeBE;
  }

  lemma {:induction false} JoinedHigh(a: seq<byte>, b: seq<byte>)
    requires |b| == 4
    ensures DecodeBE(a + b) == 0x1_0000_0000 * DecodeBE(a) + DecodeBE(b)
  {
    var s := a + b;
    var n := |a|;
    assert s[..n + 3][..n + 2] == s[..n + 2] && s[..n + 2][..n + 1] == s[..n + 1] && s[..n + 1][..n] == a;
    assert DecodeBE(s) == 256 * DecodeBE(s[..n + 3]) + b[3];
    assert DecodeBE(s[..n + 3]) == 256 * DecodeBE(s[..n + 2]) + b[2];
    assert DecodeBE(s[..n + 2]) == 256 * DecodeBE(s[..n + 1]) + b[1];
    assert DecodeBE(s[..n + 1]) == 256 * DecodeBE(a) + b[0];
    HighFirst(b);
    hide DecodeBE;
  }

  /** Fixed-width little-endian fields hold their numbers, lowest byte first. */
  lemma {:induction false} LittleEndianMeans(s: seq<byte>, at: nat, v: nat)
    ensures at + 2 <= |s| && s[at..at + 2] == EncodeLE(v, 2) && v < 0x1_0000 ==> Holds16(s, at, v)
    ensures at + 4 <= |s| && s[at..at + 4] == EncodeLE(v, 4) && v < 0x1_0000_0000 ==> Holds32(s, at, v)
    ensures at + 8 <= |s| && s[at..at + 8] == EncodeLE(v, 8) && v < 0x1_0000_0000_0000_0000 ==> Holds64(s, at, v)
  {
    Pow256Widths();
    if at + 2 <= |s| && s[at..at + 2] == EncodeLE(v, 2) && v < 0x1_0000 {
      LittleEndianRoundTrip(v, 2);
      LowFirst(s[at..at + 2]);
    }
    if at + 4 <= |s| && s[at..at + 4] == EncodeLE(v, 4) && v < 0x1_0000_0000 {
      LittleEndianRoundTrip(v, 4);
      LowFirst(s[at..at + 4]);
    }
    if at + 8 <= |s| && s[at..at + 8] == EncodeLE(v, 8) && v < 0x1_0000_0000_0000_0000 {
      LittleEndianRoundTrip(v, 8);
      EightMeans(s, at);
    }
    hide EncodeLE;
    hide DecodeLE;
  }

  lemma {:induction false} EightMeans(s: seq<byte>, at: nat)
    requires at + 8 <= |s|
    ensures Holds64(s, at, DecodeLE(s[at..at + 8]))
  {
    var a, b := s[at..at + 4], s[at + 4..at + 8];
    assert s[at..at + 8] == a + b;
    JoinedLow(a, b);
    LowFirst(a);
    LowFirst(b);
    hide DecodeLE;
  }

  /** Big-endian fields, highest byte first. */
  lemma {:induction false} BigEndianMeans(s: seq<byte>, at: nat, v: nat)
    ensures at + 4 <= |s| && s[at..at + 4] == EncodeBE(v, 4) && v < 0x1_0000_0000 ==> HoldsBig32(s, at, v)
    ensures at + 8 <= |s| && s[at..at + 8] == EncodeBE(v, 8) && v < 0x1_0000_0000_0000_0000 ==> HoldsBig64(s, at, v)
  {
    Pow256Widths();
    if at + 4 <= |s| && s[at..at + 4] == EncodeBE(v, 4) && v < 0x1_0000_0000 {
      BigEndianRoundTrip(v, 4);
      HighFirst(s[at..at + 4]);
    }
    if at + 8 <= |s| && s[at..at + 8] == EncodeBE(v, 8) && v < 0x1_0000_0000_0000_0000 {
      BigEndianRoundTrip(v, 8);
      var a, b := s[at..at + 4], s[at + 4..at + 8];
      assert s[at..at + 8] == a + b;
      JoinedHigh(a, b);
      HighFirst(a);
      HighFirst(b);
    }
    hide EncodeBE;
    hide DecodeBE;
  }

  // ---- keys and events ----

  lemma {:induction false} KeyLayout(k: Key)
    ensures var s := EncodeKey(k);
            |s| == 20 && HoldsBig32(s, 0, k.sym) && HoldsBig64(s, 4, k.ts) && HoldsBig64(s, 12, k.seqId)
  {
    var s := EncodeKey(k);
    assert s[0..4] == EncodeBE(k.sym, 4) && s[4..12] == EncodeBE(k.ts, 8) && s[12..20] == EncodeBE(k.seqId, 8);
    BigEndianMeans(s, 0, k.sym);
    BigEndianMeans(s, 4, k.ts);
    BigEndianMeans(s, 12, k.seqId);
    hide EncodeKey;
    hide EncodeBE;
    hide HoldsBig32;
    hide HoldsBig64;
  }

  /** A signed value is its unsigned image modulo 2^64. */
  lemma {:induction false} TwosComplement(x: i64, u: u64)
    ensures ToUnsigned(x) == x || ToUnsigned(x) == x + 0x1_0000_0000_0000_0000
    ensures ToSigned(u) == u || ToSigned(u) == u - 0x1_0000_0000_0000_0000
    ensures ToSigned(ToUnsigned(x)) == x && ToUnsigned(ToSigned(u)) == u
  {
  }

  lemma {:induction false} EventLayout(e: Event)
    ensures var s := EncodeEvent(e);
            && |s| == 65 && Holds64(s, 0, e.ts) && Holds32(s, 8, e.sym) && Holds64(s, 12, e.seqId) && s[20] == e.kind
            && HoldsSigned(s, 21, e.price) && HoldsSigned(s, 29, e.bidPx) && HoldsSigned(s, 37, e.askPx)
            && Holds32(s, 45, e.quantity) && Holds32(s, 49, e.bidQty) && Holds32(s, 53, e.askQty)
            && Holds64(s, 57, e.orderId)
  {
    EventSlices(e);
    var s := EncodeEvent(e);
    hide EncodeEvent;
    hide EncodeLE;
    hide Holds64;
    hide Holds32;
    LittleEndianMeans(s, 0, e.ts);
    LittleEndianMeans(s, 8, e.sym);
    LittleEndianMeans(s, 12, e.seqId);
    LittleEndianMeans(s, 21, ToUnsigned(e.price));
    LittleEndianMeans(s, 29, ToUnsigned(e.bidPx));
    LittleEndianMeans(s, 37, ToUnsigned(e.askPx));
    LittleEndianMeans(s, 45, e.quantity);
    LittleEndianMeans(s, 49, e.bidQty);
    LittleEndianMeans(s, 53, e.askQty);
    LittleEndianMeans(s, 57, e.orderId);
  }

  lemma {:induction false} EventSlices(e: Event)
    ensures var s := EncodeEvent(e);
            && s[0..8] == EncodeLE(e.ts, 8) && s[8..12] == EncodeLE(e.sym, 4) && s[12..20] == EncodeLE(e.seqId, 8)
            && s[20] == e.kind && s[21..29] == EncodeLE(ToUnsigned(e.price), 8)
            && s[29..37] == EncodeLE(ToUnsigned(e.bidPx), 8) && s[37..45] == EncodeLE(ToUnsigned(e.askPx), 8)
            && s[45..49] == EncodeLE(e.quantity, 4) && s[49..53] == EncodeLE(e.bidQty, 4)
            && s[53..57] == EncodeLE(e.askQty, 4) && s[57..65] == EncodeLE(e.orderId, 8)
  {
    hide EncodeLE;
  }

  // ---- log records ----

  lemma {:induction false} MagicBytes(s: seq<byte>, at: nat, v: u32)
    requires at + 4 <= |s|
    ensures Read32(s, at) == v <==> Holds32(s, at, v)
  {
    LowFirst(s[at..at + 4]);
    hide DecodeLE;
  }

  /** The letters NORK, version 1, the length 65, the checksum of version, length and event, and the event. */
  lemma {:induction false} RecordLayout(e: Event)
    ensures var r := L.Record(e);
            && |r| == 78 && r[..4] == [0x4E, 0x4F, 0x52, 0x4B] && r[4] == 1 && r[5..9] == [65, 0, 0, 0]
            && r[13..] == EncodeEvent(e) && Holds32(r, 9, ValueOf(Crc(r[4..9] + r[13..], Zeros(32))))
  {
    var r, head, payload := L.Record(e), L.HeaderForCrc(65), EncodeEvent(e);
    RecordSlices(e);
    SmallBytes();
    L.WalCrcIsOneStream(head, payload);
    hide *;
    ChecksumMeans(r, 9, L.WalCrc(head, payload));
  }

  lemma {:induction false} RecordSlices(e: Event)
    ensures var r, head, payload := L.Record(e), L.HeaderForCrc(65), EncodeEvent(e);
            && |r| == 78 && r[..4] == EncodeLE(0x4B524F4E, 4) && r[4] == 1 && r[5..9] == EncodeLE(65, 4)
            && r[4..9] == head && r[13..] == payload && r[9..13] == CrcBytes(L.WalCrc(head, payload))
  {
    hide EncodeEvent;
    hide EncodeLE;
    hide L.WalCrc;
    hide CrcBytes;
    var r, head := L.Record(e), L.HeaderForCrc(65);
    assert head == [1] + EncodeLE(65, 4);
    assert r[4..9] == head;
    assert r[5..9] == r[4..9][1..];
  }

  lemma {:induction false} SmallBytes()
    ensures EncodeLE(0x4B524F4E, 4) == [0x4E, 0x4F, 0x52, 0x4B] && EncodeLE(65, 4) == [65, 0, 0, 0]
    ensures EncodeLE(0x4B535354, 4) == [0x54, 0x53, 0x53, 0x4B] && EncodeLE(2, 4) == [2, 0, 0, 0]
  {
    FourBytes(0x4B524F4E);
    FourBytes(65);
    FourBytes(0x4B535354);
    FourBytes(2);
    hide EncodeLE;
  }

  lemma {:induction false} FourBytes(v: nat)
    ensures EncodeLE(v, 4) == [v % 256, v / 256 % 256, v / 256 / 256 % 256, v / 256 / 256 / 256 % 256]
  {
    EncodeLENext(v, 3);
    EncodeLENext(v / 256, 2);
    EncodeLENext(v / 256 / 256, 1);
    EncodeLENext(v / 256 / 256 / 256, 0);
  }

  lemma {:induction false} ChecksumMeans(s: seq<byte>, at: nat, crc: Word)
    requires at + 4 <= |s| && s[at..at + 4] == CrcBytes(crc)
    ensures Holds32(s, at, ValueOf(crc))
  {
    CrcBytesRoundTrip(crc);
    LittleEndianMeans(s, at, ValueOf(crc));
    hide EncodeLE;
    hide DecodeLE;
  }

  /** A record is consumed exactly when its 13 header bytes are there, begin with the magic letters and version 1,
      claim a length that ends inside the file, and carry the checksum of their fifth to ninth byte and the payload. It
      yields an event exactly when the length is 65. */
  lemma {:induction false} ConsumedIff(f: seq<byte>, at: nat, len: nat)
    requires at + 13 <= |f| ==> Holds32(f, at + 5, len)
    ensures L.TurnAt(f, at).Consumed? <==>
              && at + 13 <= |f| && f[at..at + 4] == [0x4E, 0x4F, 0x52, 0x4B] && f[at + 4] == 1 && at + 13 + len <= |f|
              && Holds32(f, at + 9, ValueOf(Crc(f[at + 4..at + 9] + f[at + 13..at + 13 + len], Zeros(32))))
    ensures L.TurnAt(f, at).Consumed? ==>
              && L.TurnAt(f, at).next == at + 13 + len
              && L.TurnAt(f, at).event == if len == 65 then Some(DecodeEvent(f[at + 13..at + 78])) else None
    ensures L.TurnAt(f, at).Short? <==> at + 13 > |f|
  {
    if at + 13 <= |f| {
      MagicBytes(f, at, 0x4B524F4E);
      MagicBytes(f, at + 5, len);
      LettersAre(f, at);
      TurnIs(f, at, len);
      if f[at + 4] == 1 && at + 13 + len <= |f| {
        HeaderIs(f, at, len);
        ChecksumIs(f, at, len);
      }
    }
    hide *;
  }

  lemma {:induction false} ChecksumIs(f: seq<byte>, at: nat, len: nat)
    requires at + 13 + len <= |f| && L.HeaderForCrc(len) == f[at + 4..at + 9]
    ensures ValueOf(L.WalCrc(L.HeaderForCrc(len), f[at + 13..at + 13 + len])) == Read32(f, at + 9)
       <==> Holds32(f, at + 9, ValueOf(Crc(f[at + 4..at + 9] + f[at + 13..at + 13 + len], Zeros(32))))
  {
    hide *;
    L.WalCrcIsOneStream(L.HeaderForCrc(len), f[at + 13..at + 13 + len]);
    var crc := Crc(f[at + 4..at + 9] + f[at + 13..at + 13 + len], Zeros(32));
    WordBelow(crc);
    MagicBytes(f, at + 9, ValueOf(crc));
  }

  lemma {:induction false} WordBelow(crc: Word)
    ensures ValueOf(crc) < 0x1_0000_0000
  {
    Pow2Widths();
    ValueBound(crc);
  }

  lemma {:induction false} TurnIs(f: seq<byte>, at: nat, len: nat)
    requires at + 13 <= |f| && Read32(f, at + 5) == len
    ensures L.TurnAt(f, at) ==
              if Read32(f, at) == 0x4B524F4E && f[at + 4] == 1 && at + 13 + len <= |f|
                 && ValueOf(L.WalCrc(L.HeaderForCrc(len), f[at + 13..at + 13 + len])) == Read32(f, at + 9)
              then L.Consumed(if len == 65 then Some(DecodeEvent(f[at + 13..at + 78])) else None, at + 13 + len)
              else L.Rejected
  {
    hide ValueOf;
    hide L.WalCrc;
    hide L.HeaderForCrc;
    hide Read32;
    hide DecodeEvent;
  }

  lemma {:induction false} LettersAre(f: seq<byte>, at: nat)
    requires at + 4 <= |f|
    ensures Holds32(f, at, 0x4B524F4E) <==> f[at..at + 4] == [0x4E, 0x4F, 0x52, 0x4B]
    ensures Holds32(f, at, 0x4B535354) <==> f[at..at + 4] == [0x54, 0x53, 0x53, 0x4B]
  {
    var s := f[at..at + 4];
    assert s == [f[at], f[at + 1], f[at + 2], f[at + 3]];
  }

  lemma {:induction false} HeaderIs(f: seq<byte>, at: nat, len: nat)
    requires at + 13 <= |f| && f[at + 4] == 1 && Holds32(f, at + 5, len)
    ensures L.HeaderForCrc(len) == f[at + 4..at + 9]
  {
    var s := f[at + 5..at + 9];
    LowFirst(s);
    LittleEndianOnto(s);
    assert EncodeLE(len, 4) == s;
    assert f[at + 4..at + 9] == [1] + s;
    hide EncodeLE;
    hide DecodeLE;
  }

  // ---- blocks ----

  /** The count, 65 bytes for every event, the least and the greatest key, and the checksum of all of these. */
  lemma {:induction false} BlockLayout(es: seq<Event>)
    requires es != [] && |es| < TWO_32
    ensures var d, n := B.EncodeBlock(es), 65 * |es|;
            && |d| == n + 48 && Holds32(d, 0, |es|)
            && d[4 + n..24 + n] == EncodeKey(B.Least(es)) && d[24 + n..44 + n] == EncodeKey(B.Greatest(es))
            && Holds32(d, 44 + n, ValueOf(Crc(d[..44 + n], Zeros(32))))
    ensures forall i :: 0 <= i < |es| ==> B.EncodeBlock(es)[4 + 65 * i..69 + 65 * i] == EncodeEvent(es[i])
  {
    var d, n := B.EncodeBlock(es), 65 * |es|;
    B.BlockFields(es, []);
    assert d + [] == d;
    LittleEndianMeans(d, 0, |es|);
    ChecksumMeans(d, 44 + n, Crc(d[..44 + n], Zeros(32)));
    forall i | 0 <= i < |es| ensures d[4 + 65 * i..69 + 65 * i] == EncodeEvent(es[i]) {
      EventPlace(es, i);
    }
    hide B.EncodeBlock;
    hide B.Least;
    hide B.Greatest;
    hide EncodeEvent;
    hide EncodeKey;
    hide EncodeLE;
    hide Crc;
    hide CrcBytes;
    hide Holds32;
  }

  lemma {:induction false} EventPlace(es: seq<Event>, i: nat)
    requires i < |es|
    ensures B.EncodeBlock(es)[4 + 65 * i..69 + 65 * i] == EncodeEvent(es[i])
  {
    hide *;
    var front, low, high, crc := BlockParts(es);
    InEvents(es, i);
    Inside(front, B.EncodeEvents(es), low, high, crc, 65 * i);
  }

  lemma {:induction false} BlockParts(es: seq<Event>)
    returns (front: seq<byte>, low: seq<byte>, high: seq<byte>, crc: seq<byte>)
    requires es != []
    ensures |front| == 4 && |B.EncodeEvents(es)| == 65 * |es|
    ensures B.EncodeBlock(es) == front + B.EncodeEvents(es) + low + high + crc
  {
    front, low, high := EncodeLE(|es| % TWO_32, 4), EncodeKey(B.Least(es)), EncodeKey(B.Greatest(es));
    crc := CrcBytes(Crc(B.Body(es), Zeros(32)));
    hide EncodeLE;
    hide EncodeKey;
    hide B.Least;
    hide B.Greatest;
    hide Crc;
    hide CrcBytes;
    hide B.EncodeEvents;
  }

  lemma {:induction false} Inside(a: seq<byte>, b: seq<byte>, c: seq<byte>, d: seq<byte>, e: seq<byte>, i: nat)
    requires |a| == 4 && i + 65 <= |b|
    ensures (a + b + c + d + e)[4 + i..69 + i] == b[i..i + 65]
  {
  }

  lemma {:induction false} InEvents(es: seq<Event>, i: nat)
    requires i < |es|
    ensures B.EncodeEvents(es)[65 * i..65 * i + 65] == EncodeEvent(es[i])
  {
    hide EncodeEvent;
    var n := |es| - 1;
    if i < n {
      InEvents(es[..n], i);
      assert B.EncodeEvents(es)[65 * i..65 * i + 65] == B.EncodeEvents(es[..n])[65 * i..65 * i + 65];
    }
  }

  // ---- tables ----

  /** The count, and for each block its first key, offset and size. */
  lemma {:induction false} IndexLayout(es: seq<X.IndexEntry>, i: nat)
    requires |es| < TWO_32 && i < |es|
    ensures var d, at := X.EncodeIndex(es), 4 + 32 * i;
            && |d| == 4 + 32 * |es| && Holds32(d, 0, |es|) && d[at..at + 20] == EncodeKey(es[i].firstKey)
            && Holds64(d, at + 20, es[i].offset) && Holds32(d, at + 28, es[i].size)
  {
    IndexPlace(es, i);
    hide *;
    LittleEndianMeans(X.EncodeIndex(es), 0, |es|);
    EntryLayout(X.EncodeIndex(es), 4 + 32 * i, es[i]);
  }

  lemma {:induction false} EntryLayout(d: seq<byte>, at: nat, e: X.IndexEntry)
    requires at + 32 <= |d| && d[at..at + 32] == X.EncodeEntry(e)
    ensures d[at..at + 20] == EncodeKey(e.firstKey) && Holds64(d, at + 20, e.offset) && Holds32(d, at + 28, e.size)
  {
    EntryParts(d, at, e);
    hide *;
    LittleEndianMeans(d, at + 20, e.offset);
    LittleEndianMeans(d, at + 28, e.size);
  }

  lemma {:induction false} IndexPlace(es: seq<X.IndexEntry>, i: nat)
    requires |es| < TWO_32 && i < |es|
    ensures var d, at := X.EncodeIndex(es), 4 + 32 * i;
            |d| == 4 + 32 * |es| && d[0..4] == EncodeLE(|es|, 4) && d[at..at + 32] == X.EncodeEntry(es[i])
  {
    X.EntryAt(es, i);
    hide EncodeLE;
    hide X.EncodeEntry;
    hide X.EncodeEntries;
    assert |es| % TWO_32 == |es|;
    var front, body := EncodeLE(|es|, 4), X.EncodeEntries(es);
    SliceBehind(front, body, 32 * i);
  }

  lemma {:induction false} SliceBehind(a: seq<byte>, b: seq<byte>, i: nat)
    requires |a| == 4 && i + 32 <= |b|
    ensures (a + b)[4 + i..4 + i + 32] == b[i..i + 32]
  {
  }

  lemma {:induction false} EntryParts(d: seq<byte>, at: nat, e: X.IndexEntry)
    requires at + 32 <= |d| && d[at..at + 32] == X.EncodeEntry(e)
    ensures d[at..at + 20] == EncodeKey(e.firstKey)
    ensures d[at + 20..at + 28] == EncodeLE(e.offset, 8) && d[at + 28..at + 32] == EncodeLE(e.size, 4)
  {
    var x := X.EncodeEntry(e);
    hide EncodeKey;
    hide EncodeLE;
    assert x[..20] == EncodeKey(e.firstKey) && x[20..28] == EncodeLE(e.offset, 8) && x[28..32] == EncodeLE(e.size, 4);
    SliceSlice(d, at, at + 32, 0, 20);
    SliceSlice(d, at, at + 32, 20, 28);
    SliceSlice(d, at, at + 32, 28, 32);
  }

  /** The number of hashes, the number of bits, and the bits. */
  lemma {:induction false} FilterLayout(f: F.Filter)
    ensures var s := F.EncodeFilter(f); Holds32(s, 0, f.k) && Holds32(s, 4, f.m) && s[8..] == f.bits
  {
    var s := F.EncodeFilter(f);
    assert s[0..4] == EncodeLE(f.k, 4) && s[4..8] == EncodeLE(f.m, 4);
    LittleEndianMeans(s, 0, f.k);
    LittleEndianMeans(s, 4, f.m);
    hide EncodeLE;
    hide Holds32;
  }

  lemma {:induction false} MetaLayout(m: T.Meta)
    ensures var s := T.EncodeMeta(m);
            && |s| == 68 && Holds64(s, 0, m.eventCount) && Holds64(s, 8, m.dataBytes)
               && s[16..36] == EncodeKey(m.minKey)
            && s[36..56] == EncodeKey(m.maxKey) && Holds32(s, 56, m.level) && Holds64(s, 60, m.sequence)
  {
    MetaSlices(m);
    var s := T.EncodeMeta(m);
    hide T.EncodeMeta;
    hide EncodeLE;
    hide EncodeKey;
    hide Holds32;
    hide Holds64;
    LittleEndianMeans(s, 0, m.eventCount);
    LittleEndianMeans(s, 8, m.dataBytes);
    LittleEndianMeans(s, 56, m.level);
    LittleEndianMeans(s, 60, m.sequence);
  }

  lemma {:induction false} MetaSlices(m: T.Meta)
    ensures var s := T.EncodeMeta(m);
            && s[0..8] == EncodeLE(m.eventCount, 8) && s[8..16] == EncodeLE(m.dataBytes, 8)
            && s[16..36] == EncodeKey(m.minKey) && s[36..56] == EncodeKey(m.maxKey)
            && s[56..60] == EncodeLE(m.level, 4) && s[60..68] == EncodeLE(m.sequence, 8)
  {
    hide EncodeLE;
    hide EncodeKey;
  }

  /** Offset and size of filter, index and meta block, the letters TSSK and version 2. */
  lemma {:induction false} FooterLayout(f: T.Footer)
    ensures var s := T.EncodeFooter(f);
            && |s| == 56 && Holds64(s, 0, f.filterOff) && Holds64(s, 8, f.filterSize) && Holds64(s, 16, f.idxOff)
            && Holds64(s, 24, f.idxSize) && Holds64(s, 32, f.metaOff) && Holds64(s, 40, f.metaSize)
            && s[48..52] == [0x54, 0x53, 0x53, 0x4B] && s[52..] == [2, 0, 0, 0]
  {
    FooterSlices(f);
    SmallBytes();
    var s := T.EncodeFooter(f);
    hide T.EncodeFooter;
    hide EncodeLE;
    hide Holds64;
    LittleEndianMeans(s, 0, f.filterOff);
    LittleEndianMeans(s, 8, f.filterSize);
    LittleEndianMeans(s, 16, f.idxOff);
    LittleEndianMeans(s, 24, f.idxSize);
    LittleEndianMeans(s, 32, f.metaOff);
    LittleEndianMeans(s, 40, f.metaSize);
  }

  lemma {:induction false} FooterSlices(f: T.Footer)
    ensures var s := T.EncodeFooter(f);
            && s[0..8] == EncodeLE(f.filterOff, 8) && s[8..16] == EncodeLE(f.filterSize, 8)
            && s[16..24] == EncodeLE(f.idxOff, 8) && s[24..32] == EncodeLE(f.idxSize, 8)
            && s[32..40] == EncodeLE(f.metaOff, 8) && s[40..48] == EncodeLE(f.metaSize, 8)
            && s[48..52] == EncodeLE(0x4B535354, 4) && s[52..] == EncodeLE(2, 4)
  {
    hide EncodeLE;
  }

  /** A footer is refused exactly when its magic letters are damaged; the version is not looked at. */
  lemma {:induction false} FooterRefusedIff(d: seq<byte>)
    requires |d| == 56
    ensures T.DecodeFooter(d).Err? <==> d[48..52] != [0x54, 0x53, 0x53, 0x4B]
  {
    MagicBytes(d, 48, 0x4B535354);
    LettersAre(d, 48);
    hide Read32;
    hide Read64;
    hide Holds32;
  }

  /** A filter is refused when its header or the bytes for its bits are missing; the byte count is a 32-bit sum. */
  lemma {:induction false} FilterRefusedIff(d: seq<byte>, k: nat, m: nat)
    requires |d| >= 8 ==> Holds32(d, 0, k) && Holds32(d, 4, m)
    ensures F.DecodeFilter(d).Err? <==> |d| < 8 || |d| < 8 + (m + 7) % 0x1_0000_0000 / 8
    ensures F.DecodeFilter(d).Ok? ==> F.DecodeFilter(d).value.k == k && F.DecodeFilter(d).value.m == m
  {
    if |d| >= 8 {
      MagicBytes(d, 0, k);
      MagicBytes(d, 4, m);
    }
    hide Read32;
    hide Holds32;
  }

  /** An index is refused when the count or an entry is missing. */
  lemma {:induction false} IndexRefusedIff(d: seq<byte>, n: nat)
    requires |d| >= 4 ==> Holds32(d, 0, n)
    ensures X.DecodeIndex(d).Err? <==> |d| < 4 || |d| < 4 + 32 * n
    ensures X.DecodeIndex(d).Ok? ==> |X.DecodeIndex(d).value| == n
  {
    if |d| >= 4 {
      MagicBytes(d, 0, n);
    }
    hide Read32;
    hide Holds32;
    hide X.DecodeEntry;
  }

  /** A meta block is refused when it is too short. */
  lemma {:induction false} MetaRefusedIff(d: seq<byte>)
    ensures T.DecodeMeta(d).Err? <==> |d| < 68
  {
    hide Read32;
    hide Read64;
    hide DecodeKey;
  }

  /** A block is refused when it is shorter than it claims or its checksum does not match. */
  lemma {:induction false} BlockRefusedIff(d: seq<byte>, n: nat)
    requires |d| >= 48 ==> Holds32(d, 0, n)
    ensures B.DecodeBlock(d).Ok? <==> |d| >= 48 && |d| >= 48 + 65 * n
                                      && Holds32(d, 44 + 65 * n, ValueOf(Crc(d[..44 + 65 * n], Zeros(32))))
    ensures B.DecodeBlock(d).Ok? ==> |B.DecodeBlock(d).value.events| == n
  {
    if |d| >= 48 {
      MagicBytes(d, 0, n);
      BlockIs(d, n);
      if |d| >= 48 + 65 * n {
        SumIs(d, 44 + 65 * n, Crc(d[..44 + 65 * n], Zeros(32)));
      }
    }
    hide *;
  }

  lemma {:induction false} SumIs(d: seq<byte>, at: nat, crc: Word)
    requires at + 4 <= |d|
    ensures Read32(d, at) == ValueOf(crc) <==> Holds32(d, at, ValueOf(crc))
  {
    hide *;
    WordBelow(crc);
    MagicBytes(d, at, ValueOf(crc));
  }

  lemma {:induction false} BlockIs(d: seq<byte>, n: nat)
    requires |d| >= 48 && Read32(d, 0) == n
    ensures B.DecodeBlock(d).Ok? <==>
              |d| >= 48 + 65 * n && Read32(d, 44 + 65 * n) == ValueOf(Crc(d[..44 + 65 * n], Zeros(32)))
    ensures B.DecodeBlock(d).Ok? ==> |B.DecodeBlock(d).value.events| == n
  {
    hide Read32;
    hide Crc;
    hide ValueOf;
    hide DecodeKey;
    hide DecodeEvent;
  }

  /** The section's end, a 64-bit sum, does not lie beyond the file. */
  predicate Within(off: nat, n: nat, file: seq<byte>) {
    (off + n) % 0x1_0000_0000_0000_0000 <= |file|
  }

  /** The section can be read whole. */
  predicate Read(off: nat, n: nat, file: seq<byte>) {
    off + n <= |file|
  }

  /** Without an intact footer nothing opens. */
  lemma {:induction false} FooterNeeded(file: seq<byte>)
    requires |file| < 56 || file[|file| - 8..|file| - 4] != [0x54, 0x53, 0x53, 0x4B]
    ensures T.OpenTable(file).Err?
  {
    if |file| >= 56 {
      LettersOf(file);
    }
    hide T.DecodeFooter;
    hide T.LoadParts;
    hide T.InBounds;
  }

  lemma {:induction false} LettersOf(file: seq<byte>)
    requires |file| >= 56
    ensures T.DecodeFooter(file[|file| - 56..]).Err? <==> file[|file| - 8..|file| - 4] != [0x54, 0x53, 0x53, 0x4B]
  {
    hide *;
    var n := |file|;
    assert file[n - 56..] == file[n - 56..n];
    FooterRefusedIff(file[n - 56..]);
    SliceSlice(file, n - 56, n, 48, 52);
  }

  /** With this footer a table opens exactly when its three sections lie within the file and each of them decodes; a
      filter of no bytes is no filter. */
  lemma {:induction false} OpensIff(file: seq<byte>, ft: T.Footer)
    requires |file| >= 56 && T.DecodeFooter(file[|file| - 56..]) == Ok(ft)
    ensures T.OpenTable(file).Ok? <==>
              && Within(ft.filterOff, ft.filterSize, file) && Within(ft.idxOff, ft.idxSize, file)
              && Within(ft.metaOff, ft.metaSize, file)
              && (ft.filterSize > 0 ==> Read(ft.filterOff, ft.filterSize, file)
                                        && F.DecodeFilter(file[ft.filterOff..ft.filterOff + ft.filterSize]).Ok?)
              && Read(ft.idxOff, ft.idxSize, file) && X.DecodeIndex(file[ft.idxOff..ft.idxOff + ft.idxSize]).Ok?
              && Read(ft.metaOff, ft.metaSize, file) && T.DecodeMeta(file[ft.metaOff..ft.metaOff + ft.metaSize]).Ok?
    ensures T.OpenTable(file).Ok? ==>
              var t := T.OpenTable(file).value;
              && t.file == file && Ok(t.index) == X.DecodeIndex(file[ft.idxOff..ft.idxOff + ft.idxSize])
              && Ok(t.meta) == T.DecodeMeta(file[ft.metaOff..ft.metaOff + ft.metaSize])
              && if ft.filterSize > 0 then Ok(t.filter)
                 == F.DecodeFilter(file[ft.filterOff..ft.filterOff + ft.filterSize])
                 else t.filter.m == 0
  {
    hide T.DecodeFooter;
    hide F.DecodeFilter;
    hide X.DecodeIndex;
    hide T.DecodeMeta;
  }

  /** The parts in their order, and a footer that says where they lie. */
  ghost predicate Sections(f: seq<byte>, data: seq<byte>, filter: seq<byte>, idx: seq<byte>, meta: seq<byte>) {
    var a := |data|;
    var b := a + |filter|;
    var c := b + |idx|;
    && c + |meta| < 0x1_0000_0000_0000_0000 && |f| == c + |meta| + 56
    && f[..a] == data && f[a..b] == filter && f[b..c] == idx && f[c..c + |meta|] == meta
    && f[c + |meta|..] == T.EncodeFooter(T.Footer(a, |filter|, b, |idx|, c, |meta|))
  }

  /** A written file is its blocks, the filter, the index, the meta block and the footer. */
  lemma {:induction false} FileLayout(r: T.Recipe, es: seq<Event>)
    requires T.Fits(r, es)
    ensures var p := T.Pack(es, r.target);
            Sections(T.FileOf(r, es), T.BlockBytes(p), F.EncodeFilter(T.KeyFilter(r.filter, es)),
              X.EncodeIndex(T.EntriesOf(p)), T.EncodeMeta(T.MetaOf(r, es)))
  {
    FileParts(r, es);
    hide *;
    var p := T.Pack(es, r.target);
    Assembled(T.BlockBytes(p), F.EncodeFilter(T.KeyFilter(r.filter, es)), X.EncodeIndex(T.EntriesOf(p)),
      T.EncodeMeta(T.MetaOf(r, es)));
  }

  lemma {:induction false} FileParts(r: T.Recipe, es: seq<Event>)
    requires T.Fits(r, es)
    ensures var p := T.Pack(es, r.target);
            var data, filter := T.BlockBytes(p), F.EncodeFilter(T.KeyFilter(r.filter, es));
            var idx, meta := X.EncodeIndex(T.EntriesOf(p)), T.EncodeMeta(T.MetaOf(r, es));
            && T.FileOf(r, es) == T.Assemble(data, filter, idx, meta) && |T.FileOf(r, es)| < 0x1_0000_0000_0000_0000
  {
    hide T.Pack;
    hide T.BlockBytes;
    hide T.EntriesOf;
    hide T.KeyFilter;
    hide T.Assemble;
    hide F.EncodeFilter;
    hide X.EncodeIndex;
    hide T.EncodeMeta;
    hide T.MetaOf;
    hide F.WellFormed;
  }

  lemma {:induction false} Assembled(data: seq<byte>, filter: seq<byte>, idx: seq<byte>, meta: seq<byte>)
    requires |T.Assemble(data, filter, idx, meta)| < 0x1_0000_0000_0000_0000
    ensures Sections(T.Assemble(data, filter, idx, meta), data, filter, idx, meta)
  {
    var a, b := |data|, |data| + |filter|;
    var foot := T.EncodeFooter(T.Footer(a, |filter|, b, |idx|, b + |idx|, |meta|));
    AssembledFrom(data, filter, idx, meta);
    FiveParts(data, filter, idx, meta, foot);
    hide T.Assemble;
    hide T.EncodeFooter;
  }

  /** No section of a file below 2^64 bytes is cut to its width in the footer. */
  lemma {:induction false} AssembledFrom(data: seq<byte>, filter: seq<byte>, idx: seq<byte>, meta: seq<byte>)
    requires |T.Assemble(data, filter, idx, meta)| < 0x1_0000_0000_0000_0000
    ensures var a, b := |data|, |data| + |filter|;
            var c := b + |idx|;
            && c + |meta| + 56 < 0x1_0000_0000_0000_0000
            && var foot := T.EncodeFooter(T.Footer(a, |filter|, b, |idx|, c, |meta|));
            |foot| == 56 && T.Assemble(data, filter, idx, meta) == data + filter + idx + meta + foot
  {
    hide T.EncodeFooter;
  }

  lemma {:induction false} FiveParts(p: seq<byte>, q: seq<byte>, r: seq<byte>, s: seq<byte>, t: seq<byte>)
    ensures var f, a, b, c := p + q + r + s + t, |p|, |p| + |q|, |p| + |q| + |r|;
            && |f| == c + |s| + |t| && f[..a] == p && f[a..b] == q && f[b..c] == r && f[c..c + |s|] == s
            && f[c + |s|..] == t
  {
  }

  /** What a table says of itself: how many events, the bytes of its blocks, its first and last key, level and
      sequence. */
  lemma {:induction false} MetaSays(r: T.Recipe, es: seq<Event>)
    requires |es| < 0x1_0000_0000_0000_0000 && |T.BlockBytes(T.Pack(es, r.target))| < 0x1_0000_0000_0000_0000
    ensures var m := T.MetaOf(r, es);
            && m.eventCount == |es| && m.dataBytes == |T.BlockBytes(T.Pack(es, r.target))|
            && m.level == r.level && m.sequence == r.sequence
            && (es != [] ==> m.minKey == Key(es[0].sym, es[0].ts, es[0].seqId))
            && (es != [] ==> var x := es[|es| - 1]; m.maxKey == Key(x.sym, x.ts, x.seqId))
            && (es == [] ==> m.minKey == Key(0, 0, 0) && m.maxKey == Key(0, 0, 0))
  {
    hide T.Pack;
    hide T.BlockBytes;
  }

  /** Sizes that the formats and structures fix. */
  lemma {:induction false} FixedSizes()
    ensures R.BLOCK_TARGET == 65536 && A.BLOCK_SIZE == 4096 && A.WORD_SIZE == 8
    ensures K.MAX_HEIGHT == 12 && M.MAX_HEIGHT == 12
  {
  }

  // ---- the symbol file and the names of tables ----

  /** The id, the length of the name and the name. */
  lemma {:induction false} SymbolLayout(e: N.Entry)
    requires |e.name| < 65536
    ensures var s := N.EncodeEntry(e); Holds32(s, 0, e.id) && Holds16(s, 4, |e.name|) && s[6..] == e.name
  {
    hide *;
    var s := N.EncodeEntry(e);
    SymbolParts(e);
    LittleEndianMeans(s, 0, e.id);
    LittleEndianMeans(s, 4, |e.name|);
  }

  lemma {:induction false} SymbolParts(e: N.Entry)
    requires |e.name| < 65536
    ensures var s := N.EncodeEntry(e);
            |s| >= 6 && s[0..4] == EncodeLE(e.id, 4) && s[4..6] == EncodeLE(|e.name|, 2) && s[6..] == e.name
  {
    hide EncodeLE;
  }

  /** Sequences are written with at least six digits. */
  lemma {:induction false} PathsLook()
    ensures P.FlushPath(7) == "l0/sst_l0_000007.sst"
    ensures P.OutputPath("l1", 1, 42) == "l1/sst_000001_000042.sst"
  {
    SixDigits();
    hide P.Padded;
    hide P.Decimal;
  }

  lemma {:induction false} SixDigits()
    ensures P.Padded(P.Decimal(7)) == "000007" && P.Padded(P.Decimal(1)) == "000001"
            && P.Padded(P.Decimal(42)) == "000042"
  {
    assert P.Decimal(7) == "7" && P.Decimal(1) == "1" && P.Decimal(42) == P.Decimal(4) + "2" && P.Decimal(4) == "4";
  }
}
