/** Bytes, the fixed-width integers of the on-disk formats, and their byte orders. */
module Bytes {

  type byte = x: int | 0 <= x < 256
  type u32 = x: int | 0 <= x < 0x1_0000_0000
  type u64 = x: int | 0 <= x < 0x1_0000_0000_0000_0000
  type i64 = x: int | -0x8000_0000_0000_0000 <= x < 0x8000_0000_0000_0000

  const TWO_32: nat := 0x1_0000_0000
  const TWO_64: nat := 0x1_0000_0000_0000_0000

  function Pow256(n: nat): (p: nat)
    ensures p > 0
  {
    if n == 0 then 1 else 256 * Pow256(n - 1)
  }

  lemma {:induction false} Pow256Widths()
    ensures Pow256(1) == 256
    ensures Pow256(2) == 0x1_0000
    ensures Pow256(4) == TWO_32
    ensures Pow256(8) == TWO_64
  {
    assert Pow256(3) == 0x100_0000;
    assert Pow256(5) == 0x100_0000_0000;
    assert Pow256(6) == 0x1_0000_0000_0000;
    assert Pow256(7) == 0x100_0000_0000_0000;
  }

  /** `(v >> 8*i) & 0xFF` */
  function ByteAt(v: nat, i: nat): byte
    decreases i
  {
    if i == 0 then v % 256 else ByteAt(v / 256, i - 1)
  }

  /** The n low bytes of v, least significant first. */
  function EncodeLE(v: nat, n: nat): (s: seq<byte>)
    ensures |s| == n
  {
    seq(n, i requires 0 <= i < n => ByteAt(v, i))
  }

  lemma {:induction false} EncodeLENext(v: nat, n: nat)
    ensures EncodeLE(v, n + 1) == [v % 256] + EncodeLE(v / 256, n)
  {
  }

  function DecodeLE(s: seq<byte>): (v: nat)
    ensures v < Pow256(|s|)
  {
    if s == [] then 0 else s[0] + 256 * DecodeLE(s[1..])
  }

  /** The n low bytes of v, most significant first. */
  function EncodeBE(v: nat, n: nat): (s: seq<byte>)
    ensures |s| == n
  {
    seq(n, i requires 0 <= i < n => ByteAt(v, n - 1 - i))
  }

  lemma {:induction false} EncodeBENext(v: nat, n: nat)
    ensures EncodeBE(v, n + 1) == EncodeBE(v / 256, n) + [v % 256]
  {
    forall i | 0 <= i < n ensures EncodeBE(v, n + 1)[i] == EncodeBE(v / 256, n)[i] {
      assert ByteAt(v, n - i) == ByteAt(v / 256, n - i - 1);
    }
    assert EncodeBE(v, n + 1)[n] == ByteAt(v, 0);
    assert EncodeBE(v, n + 1) == EncodeBE(v, n + 1)[..n] + [v % 256];
    assert EncodeBE(v, n + 1)[..n] == EncodeBE(v / 256, n);
  }

  function DecodeBE(s: seq<byte>): (v: nat)
    ensures v < Pow256(|s|)
  {
    if s == [] then 0 else 256 * DecodeBE(s[..|s| - 1]) + s[|s| - 1]
  }

  lemma {:induction false} LittleEndianRoundTrip(v: nat, n: nat)
    requires v < Pow256(n)
    ensures DecodeLE(EncodeLE(v, n)) == v
    decreases n
  {
    if n > 0 {
      LittleEndianRoundTrip(v / 256, n - 1);
      EncodeLENext(v, n - 1);
    }
  }

  lemma {:induction false} LittleEndianOnto(s: seq<byte>)
    ensures EncodeLE(DecodeLE(s), |s|) == s
  {
    if s != [] {
      LittleEndianOnto(s[1..]);
      EncodeLENext(DecodeLE(s), |s| - 1);
    }
  }

  lemma {:induction false} BigEndianRoundTrip(v: nat, n: nat)
    requires v < Pow256(n)
    ensures DecodeBE(EncodeBE(v, n)) == v
    decreases n
  {
    if n > 0 {
      BigEndianRoundTrip(v / 256, n - 1);
      EncodeBENext(v, n - 1);
    }
  }

  lemma {:induction false} BigEndianOnto(s: seq<byte>)
    ensures EncodeBE(DecodeBE(s), |s|) == s
  {
    if s != [] {
      BigEndianOnto(s[..|s| - 1]);
      EncodeBENext(DecodeBE(s), |s| - 1);
    }
  }

  /** Byte-lexicographic order, the order `memcmp` gives. */
  predicate LexLess(a: seq<byte>, b: seq<byte>) {
    b != [] && (a == [] || a[0] < b[0] || (a[0] == b[0] && LexLess(a[1..], b[1..])))
  }

  lemma {:induction false} LexLessConcat(a: seq<byte>, b: seq<byte>, c: seq<byte>, d: seq<byte>)
    requires |a| == |b|
    ensures LexLess(a + c, b + d) <==> LexLess(a, b) || (a == b && LexLess(c, d))
  {
    if a == [] {
      assert a + c == c && b + d == d;
    } else {
      LexLessConcat(a[1..], b[1..], c, d);
      assert (a + c)[1..] == a[1..] + c && (b + d)[1..] == b[1..] + d;
      assert a == b <==> a[0] == b[0] && a[1..] == b[1..];
    }
  }

  /** Big-endian encoding turns integer order into byte order. */
  lemma {:induction false} BigEndianOrder(v: nat, w: nat, n: nat)
    requires v < Pow256(n) && w < Pow256(n)
    ensures LexLess(EncodeBE(v, n), EncodeBE(w, n)) <==> v < w
    decreases n
  {
    if n > 0 {
      BigEndianOrder(v / 256, w / 256, n - 1);
      EncodeBENext(v, n - 1);
      EncodeBENext(w, n - 1);
      LexLessConcat(EncodeBE(v / 256, n - 1), EncodeBE(w / 256, n - 1), [v % 256], [w % 256]);
      if v / 256 != w / 256 {
        BigEndianRoundTrip(v / 256, n - 1);
        BigEndianRoundTrip(w / 256, n - 1);
      }
    }
  }

  lemma {:induction false} SliceSlice<T>(f: seq<T>, a: nat, n: nat, i: nat, j: nat)
    requires i <= j && a + j <= n <= |f|
    ensures f[a..n][i..j] == f[a + i..a + j]
  {
    assert |f[a..n][i..j]| == |f[a + i..a + j]|;
    forall k | 0 <= k < j - i ensures f[a..n][i..j][k] == f[a + i..a + j][k] {
      assert f[a..n][i + k] == f[a + i + k];
    }
  }
}
