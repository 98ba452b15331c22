/** The bloom filter of a table: double hashing over packed bits. */
module Bloom {
  import opened Bytes
  import opened Core
  import opened Crc32c
  import opened Wrappers

  // ---- 32-bit arithmetic ----

  function Xor32(a: u32, b: u32): (c: u32) {
    Pow2Widths();
    ValueBound(Xor(BitsOf(a, 32), BitsOf(b, 32)));
    ValueOf(Xor(BitsOf(a, 32), BitsOf(b, 32)))
  }

  function Mul32(a: u32, b: u32): u32 {
    (a * b) % TWO_32
  }

  // ---- hashing ----

  function Fnv1a(key: seq<byte>): u32 {
    if key == [] then 2166136261
    else Mul32(Xor32(Fnv1a(key[..|key| - 1]), key[|key| - 1]), 16777619)
  }

  function MixByte(h: u32, b: byte): u32 {
    var h0 := Xor32(h, b);
    var h1 := Mul32(Xor32(h0, h0 / 65536), 0x45d9f3b);
    var h2 := Mul32(Xor32(h1, h1 / 65536), 0x45d9f3b);
    Xor32(h2, h2 / 65536)
  }

  function MurmurMix(key: seq<byte>): u32 {
    if key == [] then 0xDEADBEEF else MixByte(MurmurMix(key[..|key| - 1]), key[|key| - 1])
  }

  method HashFnv1a(key: seq<byte>) returns (hash: u32)
    ensures hash == Fnv1a(key)
  {
    hide Xor32;
    hash := 2166136261;
    for i := 0 to |key|
      invariant hash == Fnv1a(key[..i])
    {
      assert key[..i + 1][..i] == key[..i];
      hash := Xor32(hash, key[i]);
      hash := Mul32(hash, 16777619);
    }
    assert key[..|key|] == key;
  }

  method HashMurmurMix(key: seq<byte>) returns (h: u32)
    ensures h == MurmurMix(key)
  {
    hide Xor32;
    hide Mul32;
    h := 0xDEADBEEF;
    for i := 0 to |key|
      invariant h == MurmurMix(key[..i])
    {
      assert key[..i + 1][..i] == key[..i];
      h := Xor32(h, key[i]);
      h := Mul32(Xor32(h, h / 65536), 0x45d9f3b);
      h := Mul32(Xor32(h, h / 65536), 0x45d9f3b);
      h := Xor32(h, h / 65536);
    }
    assert key[..|key|] == key;
  }

  /** `(h1 + i * h2) % m`, in 32 bits. */
  function Position(key: seq<byte>, i: nat, m: u32): (p: u32)
    requires m > 0
    ensures p < m
  {
    ((Fnv1a(key) + i * MurmurMix(key)) % TWO_32) % m
  }

  // ---- bits ----

  /** `(m + 7) / 8` in 32 bits, so it wraps for the largest m. */
  function ByteCount(m: u32): nat {
    ((m + 7) % TWO_32) / 8
  }

  /** Every bit position has a byte exactly when the size computation does not wrap. */
  lemma {:induction false} PositionsHaveBytes(m: u32)
    requires m > 0
    ensures (forall p :: 0 <= p < m ==> p / 8 < ByteCount(m)) <==> m <= TWO_32 - 8
  {
    if m > TWO_32 - 8 {
      assert ByteCount(m) == 0;
      assert 0 / 8 == 0;
    }
  }

  /** `get_bit`; out of range reads as unset, which a well-formed filter never does. */
  predicate Bit(bits: seq<byte>, pos: nat) {
    pos / 8 < |bits| && BitsOf(bits[pos / 8], 8)[pos % 8]
  }

  function SetBit(bits: seq<byte>, pos: nat): (r: seq<byte>)
    requires pos / 8 < |bits|
    ensures |r| == |bits|
  {
    var b := BitsOf(bits[pos / 8], 8)[pos % 8 := true];
    ValueOfByte(b);
    bits[pos / 8 := ValueOf(b)]
  }

  lemma {:induction false} SetThenGet(bits: seq<byte>, pos: nat, other: nat)
    requires pos / 8 < |bits|
    ensures Bit(SetBit(bits, pos), other) == (other == pos || Bit(bits, other))
  {
    var b := BitsOf(bits[pos / 8], 8)[pos % 8 := true];
    BitsOfValue(b, 8);
    assert b + Zeros(0) == b;
    assert other == pos <==> other / 8 == pos / 8 && other % 8 == pos % 8;
  }

  // ---- the filter ----

  /** m == 0 is the empty filter, which lets everything pass. */
  datatype Filter = Filter(k: u32, m: u32, bits: seq<byte>)

  /** A filter with no key in it. */
  function Empty(k: u32, m: u32): (f: Filter)
    ensures m <= TWO_32 - 8 ==> WellFormed(f)
  {
    Filter(k, m, seq(ByteCount(m), _ => 0))
  }

  /** The bits vector has the size its header says, and that size did not wrap. */
  predicate WellFormed(f: Filter) {
    f.m <= TWO_32 - 8 && |f.bits| == ByteCount(f.m)
  }

  /** `may_contain`: all k probed bits are set. */
  predicate MayContain(f: Filter, key: seq<byte>) {
    f.m == 0 || forall i :: 0 <= i < f.k ==> Bit(f.bits, Position(key, i, f.m))
  }

  method Test(f: Filter, key: seq<byte>) returns (b: bool)
    requires WellFormed(f)
    ensures b == MayContain(f, key)
  {
    hide *;
    Probed(f, key);
    if f.m == 0 {
      return true;
    }
    var h1 := HashFnv1a(key);
    var h2 := HashMurmurMix(key);
    for i := 0 to f.k
      invariant forall j :: 0 <= j < i ==> Bit(f.bits, Position(key, j, f.m))
    {
      ProbeInBounds(f, key, i);
      var pos := ((h1 + i * h2) % 0x1_0000_0000) % f.m;
      assert pos / 8 < |f.bits|;
      if !Bit(f.bits, pos) {
        return false;
      }
    }
    return true;
  }

  lemma {:induction false} Probed(f: Filter, key: seq<byte>)
    ensures f.m == 0 ==> MayContain(f, key)
    ensures f.m > 0 ==> (MayContain(f, key) <==> forall i :: 0 <= i < f.k ==> Bit(f.bits, Position(key, i, f.m)))
  {
  }

  lemma {:induction false} ProbeInBounds(f: Filter, key: seq<byte>, i: nat)
    requires WellFormed(f) && f.m > 0
    ensures Position(key, i, f.m) == ((Fnv1a(key) + i * MurmurMix(key)) % 0x1_0000_0000) % f.m
    ensures Position(key, i, f.m) / 8 < |f.bits|
  {
    hide Fnv1a;
    hide MurmurMix;
    PositionsHaveBytes(f.m);
  }

  class BloomFilter {
    var k: u32
    var m: u32
    var bits: seq<byte>

    function Value(): Filter
      reads this
    {
      Filter(k, m, bits)
    }

    constructor (hashes: u32, size: u32)
      ensures Value() == Empty(hashes, size)
    {
      k, m := hashes, size;
      bits := seq(ByteCount(size), _ => 0);
    }

    method Add(key: seq<byte>)
      requires WellFormed(Value())
      modifies this
      ensures Value() == WithKey(old(Value()), key)
    {
      hide Fnv1a;
      hide MurmurMix;
      hide WellFormed;
      hide SetBit;
      hide SetBits;
      hide WithKey;
      if m == 0 {
        NothingToAdd(Value(), key);
        return;
      }
      var h1 := HashFnv1a(key);
      var h2 := HashMurmurMix(key);
      ghost var was := bits;
      AddStarts(Value(), was, key);
      for i := 0 to k
        invariant m == old(m) && k == old(k) && bits == SetBits(was, key, i, m)
      {
        Probe(Value(), was, key, i);
        var pos := ((h1 + i * h2) % 0x1_0000_0000) % m;
        bits := SetBit(bits, pos);
      }
      Added(Value(), was, key);
    }
  }

  // ---- what adding a key does ----

  /** The bits after the first n probes of the key were set. */
  function SetBits(bits: seq<byte>, key: seq<byte>, n: nat, m: u32): (r: seq<byte>)
    requires 0 < m && (m - 1) / 8 < |bits|
    ensures |r| == |bits|
  {
    if n == 0 then bits else SetBit(SetBits(bits, key, n - 1, m), Position(key, n - 1, m))
  }

  function WithKey(f: Filter, key: seq<byte>): (g: Filter)
    requires WellFormed(f)
    ensures WellFormed(g)
  {
    if f.m == 0 then f else Filter(f.k, f.m, SetBits(f.bits, key, f.k, f.m))
  }

  lemma {:induction false} NothingToAdd(f: Filter, key: seq<byte>)
    requires WellFormed(f) && f.m == 0
    ensures WithKey(f, key) == f
  {
  }

  lemma {:induction false} Added(f: Filter, was: seq<byte>, key: seq<byte>)
    requires f.m > 0 && (f.m - 1) / 8 < |was| && f.bits == SetBits(was, key, f.k, f.m)
    requires WellFormed(Filter(f.k, f.m, was))
    ensures f == WithKey(Filter(f.k, f.m, was), key)
  {
  }

  lemma {:induction false} AddStarts(f: Filter, was: seq<byte>, key: seq<byte>)
    requires WellFormed(f) && f.m > 0 && f.bits == was
    ensures (f.m - 1) / 8 < |was| && SetBits(was, key, 0, f.m) == was
  {
  }

  lemma {:induction false} Probe(f: Filter, was: seq<byte>, key: seq<byte>, i: nat)
    requires f.m > 0 && (f.m - 1) / 8 < |was| && f.bits == SetBits(was, key, i, f.m)
    ensures var pos := ((Fnv1a(key) + i * MurmurMix(key)) % 0x1_0000_0000) % f.m;
            pos / 8 < |f.bits| && SetBits(was, key, i + 1, f.m) == SetBit(f.bits, pos)
  {
    hide Fnv1a;
    hide MurmurMix;
    hide SetBit;
  }

  lemma {:induction false} SetBitsHas(bits: seq<byte>, key: seq<byte>, n: nat, m: u32, p: nat)
    requires 0 < m && (m - 1) / 8 < |bits|
    ensures Bit(SetBits(bits, key, n, m), p) <==> Bit(bits, p) || exists i :: 0 <= i < n && Position(key, i, m) == p
  {
    hide Bit;
    hide SetBit;
    if n > 0 {
      SetBitsHas(bits, key, n - 1, m, p);
      SetThenGet(SetBits(bits, key, n - 1, m), Position(key, n - 1, m), p);
    }
  }

  /** An added key is found, and no key that was found is lost. */
  lemma {:induction false} NoFalseNegatives(f: Filter, key: seq<byte>, other: seq<byte>)
    requires WellFormed(f)
    ensures MayContain(WithKey(f, key), key)
    ensures MayContain(f, other) ==> MayContain(WithKey(f, key), other)
  {
    var g := WithKey(f, key);
    GrownBits(f, key);
    hide *;
    Probed(f, other);
    Probed(g, key);
    Probed(g, other);
    if f.m > 0 {
      forall i | 0 <= i < f.k ensures Bit(g.bits, Position(key, i, f.m)) {
        SetBitsHas(f.bits, key, f.k, f.m, Position(key, i, f.m));
      }
      forall i | 0 <= i < f.k && Bit(f.bits, Position(other, i, f.m)) ensures Bit(g.bits, Position(other, i, f.m)) {
        SetBitsHas(f.bits, key, f.k, f.m, Position(other, i, f.m));
      }
    }
  }

  lemma {:induction false} GrownBits(f: Filter, key: seq<byte>)
    requires WellFormed(f)
    ensures WithKey(f, key).m == f.m && WithKey(f, key).k == f.k
    ensures f.m > 0 ==> (f.m - 1) / 8 < |f.bits| && WithKey(f, key).bits == SetBits(f.bits, key, f.k, f.m)
  {
    assert f.m > 0 ==> (f.m - 1) / 8 < |f.bits|;
    hide SetBits;
    hide ByteCount;
  }

  // ---- codec ----

  function EncodeFilter(f: Filter): (s: seq<byte>)
    ensures |s| == 8 + |f.bits|
  {
    EncodeLE(f.k, 4) + EncodeLE(f.m, 4) + f.bits
  }

  function DecodeFilter(d: seq<byte>): Result<Filter> {
    if |d| < 8 then Err
    else
      var n := ByteCount(Read32(d, 4));
      if |d| < 8 + n then Err else Ok(Filter(Read32(d, 0), Read32(d, 4), d[8..8 + n]))
  }

  lemma {:induction false} FilterRoundTrip(f: Filter)
    requires |f.bits| == ByteCount(f.m)
    ensures DecodeFilter(EncodeFilter(f)) == Ok(f)
  {
    var d := EncodeFilter(f);
    assert d[0..4] == EncodeLE(f.k, 4);
    assert d[4..8] == EncodeLE(f.m, 4);
    Read32From(d, 0, f.k);
    Read32From(d, 4, f.m);
    assert d[8..8 + |f.bits|] == f.bits;
  }
}
