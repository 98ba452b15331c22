/** What the filter's two hashes compute, as arithmetic: every step is a bijection of the 32-bit state, so keys of one
    length that differ in their last byte never share a hash, and a key that was not added can be refused. */
module BloomHashes {
  import opened Bytes
  import opened Crc32c
  import opened Bloom

  // ---- exclusive or, bit by bit ----

  function BitwiseXor(a: nat, b: nat): nat
    decreases a + b
  {
    if a == 0 && b == 0 then 0 else 2 * BitwiseXor(a / 2, b / 2) + if a % 2 != b % 2 then 1 else 0
  }

  lemma {:induction false} XorHalves(a: nat, b: nat)
    ensures BitwiseXor(a, b) == 2 * BitwiseXor(a / 2, b / 2) + if a % 2 != b % 2 then 1 else 0
    ensures BitwiseXor(a, b) / 2 == BitwiseXor(a / 2, b / 2)
    ensures BitwiseXor(a, b) % 2 == if a % 2 != b % 2 then 1 else 0
  {
  }

  lemma {:induction false} XorZero(a: nat)
    ensures BitwiseXor(a, 0) == a
  {
    if a > 0 {
      XorZero(a / 2);
    }
  }

  lemma {:induction false} XorTwice(a: nat, b: nat)
    ensures BitwiseXor(BitwiseXor(a, b), b) == a
    decreases a + b
  {
    if a != 0 || b != 0 {
      XorTwice(a / 2, b / 2);
      XorHalves(a, b);
      XorHalves(BitwiseXor(a, b), b);
      hide BitwiseXor;
    }
  }

  lemma {:induction false} XorSymmetric(a: nat, b: nat)
    ensures BitwiseXor(a, b) == BitwiseXor(b, a)
    decreases a + b
  {
    if a != 0 || b != 0 {
      XorSymmetric(a / 2, b / 2);
      XorHalves(a, b);
      XorHalves(b, a);
      hide BitwiseXor;
    }
  }

  lemma {:induction false} ShrHigh(v: nat, n: nat)
    requires v < Pow2(n)
    ensures Shr(v, n) == 0
    decreases n
  {
    if n > 0 {
      ShrHigh(v / 2, n - 1);
    }
  }

  lemma {:induction false} XorValue(a: nat, b: nat, n: nat)
    requires a < Pow2(n) && b < Pow2(n)
    ensures ValueOf(Xor(BitsOf(a, n), BitsOf(b, n))) == BitwiseXor(a, b)
    decreases n
  {
    if n == 0 {
      assert Xor(BitsOf(a, 0), BitsOf(b, 0)) == [];
    } else {
      assert Pow2(n) == 2 * Pow2(n - 1);
      hide *;
      XorValue(a / 2, b / 2, n - 1);
      FirstDigit(a, b, n);
      XorHalves(a, b);
    }
  }

  lemma {:induction false} FirstDigit(a: nat, b: nat, n: nat)
    requires n > 0
    ensures ValueOf(Xor(BitsOf(a, n), BitsOf(b, n)))
         == 2 * ValueOf(Xor(BitsOf(a / 2, n - 1), BitsOf(b / 2, n - 1))) + if a % 2 != b % 2 then 1 else 0
  {
    BitsOfNext(a, n - 1);
    BitsOfNext(b, n - 1);
    hide BitsOf;
    var x := Xor(BitsOf(a, n), BitsOf(b, n));
    assert x[1..] == Xor(BitsOf(a / 2, n - 1), BitsOf(b / 2, n - 1));
    assert x[0] == (a % 2 != b % 2);
  }

  /** The filter's exclusive or is the one of the binary digits. */
  lemma {:induction false} Xor32IsBitwise(a: u32, b: u32)
    ensures Xor32(a, b) == BitwiseXor(a, b)
  {
    Pow2Widths();
    XorValue(a, b, 32);
    hide BitwiseXor;
  }

  lemma {:induction false} XorInjective(a: u32, b: u32, c: u32)
    requires Xor32(a, c) == Xor32(b, c)
    ensures a == b
  {
    Xor32IsBitwise(a, c);
    Xor32IsBitwise(b, c);
    XorTwice(a, c);
    XorTwice(b, c);
    hide BitwiseXor;
  }

  lemma {:induction false} XorSecondInjective(a: u32, b: u32, c: u32)
    requires Xor32(c, a) == Xor32(c, b)
    ensures a == b
  {
    Xor32IsBitwise(c, a);
    Xor32IsBitwise(c, b);
    XorSymmetric(c, a);
    XorSymmetric(c, b);
    XorTwice(a, c);
    XorTwice(b, c);
    hide BitwiseXor;
  }

  // ---- mixing the high half into the low half ----

  lemma {:induction false} XorShifted(a: nat, b: nat, n: nat)
    ensures Shr(BitwiseXor(a, b), n) == BitwiseXor(Shr(a, n), Shr(b, n))
    decreases n
  {
    if n > 0 {
      XorHalves(a, b);
      XorShifted(a / 2, b / 2, n - 1);
      hide BitwiseXor;
    }
  }

  lemma {:induction false} ShrSixteen(v: nat)
    ensures Shr(v, 16) == v / 65536
  {
    ShrByte(v, 8);
    ShrByte(v / 256, 0);
    assert Shr(v / 256 / 256, 0) == v / 256 / 256;
  }

  lemma {:induction false} FoldKeepsHigh(h: u32)
    ensures BitwiseXor(h, h / 65536) / 65536 == h / 65536
  {
    var l := h / 65536;
    XorShifted(h, l, 16);
    ShrSixteen(h);
    ShrSixteen(l);
    ShrSixteen(BitwiseXor(h, l));
    assert l / 65536 == 0;
    XorZero(l);
    hide BitwiseXor;
  }

  /** `h ^ (h >> 16)` undoes itself. */
  lemma {:induction false} FoldInjective(g: u32, h: u32)
    requires Xor32(g, g / 65536) == Xor32(h, h / 65536)
    ensures g == h
  {
    Xor32IsBitwise(g, g / 65536);
    Xor32IsBitwise(h, h / 65536);
    FoldKeepsHigh(g);
    FoldKeepsHigh(h);
    XorTwice(g, g / 65536);
    XorTwice(h, h / 65536);
    hide BitwiseXor;
  }

  // ---- multiplying by an odd constant ----

  lemma {:induction false} ProductGrows(d: int, m: int)
    requires m > 0
    ensures d >= 1 ==> d * m >= m
    ensures d <= -1 ==> d * m <= -m
  {
  }

  lemma {:induction false} Quotient(x: int, q: int, r: int, m: int)
    requires x == q * m + r && 0 <= r < m
    ensures x % m == r
  {
    var d := q - x / m;
    assert d * m == x % m - r;
    ProductGrows(d, m);
  }

  /** A product modulo 2^32, multiplied by the inverse of the factor, is what it was made from. */
  lemma {:induction false} Unmultiplied(a: u32, c: nat, inverse: nat, t: nat)
    requires c * inverse == 1 + t * 0x1_0000_0000
    ensures Mul32(a, c % 0x1_0000_0000) == (a * (c % 0x1_0000_0000)) % 0x1_0000_0000
    ensures c < 0x1_0000_0000 ==> (Mul32(a, c) * inverse) % 0x1_0000_0000 == a
  {
    if c < 0x1_0000_0000 {
      var q, r := a * c / 0x1_0000_0000, Mul32(a, c);
      assert a * c == q * 0x1_0000_0000 + r;
      var k := a * t - q * inverse;
      calc {
        r * inverse;
        (a * c - q * 0x1_0000_0000) * inverse;
        { Spread(a, c, q, inverse); }
        a * (c * inverse) - q * inverse * 0x1_0000_0000;
        a * (1 + t * 0x1_0000_0000) - q * inverse * 0x1_0000_0000;
        { Collect(a, t, q * inverse); }
        a + k * 0x1_0000_0000;
      }
      Quotient(r * inverse, k, a, 0x1_0000_0000);
    }
  }

  lemma {:induction false} Spread(a: int, c: int, q: int, i: int)
    ensures (a * c - q * 0x1_0000_0000) * i == a * (c * i) - q * i * 0x1_0000_0000
  {
    assert (a * c) * i == a * (c * i);
  }

  lemma {:induction false} Collect(a: int, t: int, s: int)
    ensures a * (1 + t * 0x1_0000_0000) - s * 0x1_0000_0000 == a + (a * t - s) * 0x1_0000_0000
  {
    assert a * (t * 0x1_0000_0000) == a * t * 0x1_0000_0000;
  }

  lemma {:induction false} PrimeInjective(a: u32, b: u32)
    requires Mul32(a, 16777619) == Mul32(b, 16777619)
    ensures a == b
  {
    Unmultiplied(a, 16777619, 899433627, 3513497);
    Unmultiplied(b, 16777619, 899433627, 3513497);
    hide Mul32;
  }

  lemma {:induction false} MixerInjective(a: u32, b: u32)
    requires Mul32(a, 0x45d9f3b) == Mul32(b, 0x45d9f3b)
    ensures a == b
  {
    Unmultiplied(a, 0x45d9f3b, 295559667, 5040344);
    Unmultiplied(b, 0x45d9f3b, 295559667, 5040344);
    hide Mul32;
  }

  // ---- the hashes ----

  /** The empty key hashes to the offset basis, and a byte multiplies the state it was xored into by the prime. */
  lemma {:induction false} FnvStep(p: seq<byte>, b: byte)
    ensures Fnv1a([]) == 2166136261
    ensures Fnv1a(p + [b]) == (BitwiseXor(Fnv1a(p), b) * 16777619) % 0x1_0000_0000
  {
    assert (p + [b])[..|p|] == p;
    Xor32IsBitwise(Fnv1a(p), b);
    hide Xor32;
    hide BitwiseXor;
  }

  /** One byte of the other hash, over the integers. */
  lemma {:induction false} MurmurStep(p: seq<byte>, b: byte)
    ensures MurmurMix([]) == 0xDEADBEEF
    ensures var h0 := BitwiseXor(MurmurMix(p), b);
            var h1 := (BitwiseXor(h0, h0 / 65536) * 0x45d9f3b) % 0x1_0000_0000;
            var h2 := (BitwiseXor(h1, h1 / 65536) * 0x45d9f3b) % 0x1_0000_0000;
            MurmurMix(p + [b]) == BitwiseXor(h2, h2 / 65536)
  {
    assert (p + [b])[..|p|] == p;
    var h0 := Xor32(MurmurMix(p), b);
    var h1 := Mul32(Xor32(h0, h0 / 65536), 0x45d9f3b);
    var h2 := Mul32(Xor32(h1, h1 / 65536), 0x45d9f3b);
    Xor32IsBitwise(MurmurMix(p), b);
    Xor32IsBitwise(h0, h0 / 65536);
    Xor32IsBitwise(h1, h1 / 65536);
    Xor32IsBitwise(h2, h2 / 65536);
    hide Xor32;
    hide BitwiseXor;
  }

  /** Keys that differ in the last byte only have different hashes. */
  lemma {:induction false} FnvSeparates(p: seq<byte>, a: byte, b: byte)
    requires a != b
    ensures Fnv1a(p + [a]) != Fnv1a(p + [b])
  {
    assert (p + [a])[..|p|] == p && (p + [b])[..|p|] == p;
    hide Xor32;
    hide Mul32;
    if Fnv1a(p + [a]) == Fnv1a(p + [b]) {
      PrimeInjective(Xor32(Fnv1a(p), a), Xor32(Fnv1a(p), b));
      XorSecondInjective(a, b, Fnv1a(p));
    }
  }

  /** What the keys share behind a difference keeps the hashes apart. */
  lemma {:induction false} FnvStaysApart(p: seq<byte>, q: seq<byte>, b: byte)
    requires Fnv1a(p) != Fnv1a(q)
    ensures Fnv1a(p + [b]) != Fnv1a(q + [b])
  {
    assert (p + [b])[..|p|] == p && (q + [b])[..|q|] == q;
    hide Xor32;
    hide Mul32;
    if Fnv1a(p + [b]) == Fnv1a(q + [b]) {
      PrimeInjective(Xor32(Fnv1a(p), b), Xor32(Fnv1a(q), b));
      XorInjective(Fnv1a(p), Fnv1a(q), b);
    }
  }

  lemma {:induction false} RoundInjective(g: u32, h: u32)
    requires Mul32(Xor32(g, g / 65536), 0x45d9f3b) == Mul32(Xor32(h, h / 65536), 0x45d9f3b)
    ensures g == h
  {
    hide Xor32;
    hide Mul32;
    MixerInjective(Xor32(g, g / 65536), Xor32(h, h / 65536));
    FoldInjective(g, h);
  }

  /** Mixing a byte in is injective in the state and in the byte. */
  lemma {:induction false} MixByteInjective(g: u32, a: byte, h: u32, b: byte)
    requires MixByte(g, a) == MixByte(h, b)
    ensures Xor32(g, a) == Xor32(h, b)
    ensures g == h <==> a == b
  {
    hide Xor32;
    hide Mul32;
    var g0, h0 := Xor32(g, a), Xor32(h, b);
    var g1, h1 := Mul32(Xor32(g0, g0 / 65536), 0x45d9f3b), Mul32(Xor32(h0, h0 / 65536), 0x45d9f3b);
    var g2, h2 := Mul32(Xor32(g1, g1 / 65536), 0x45d9f3b), Mul32(Xor32(h1, h1 / 65536), 0x45d9f3b);
    FoldInjective(g2, h2);
    RoundInjective(g1, h1);
    RoundInjective(g0, h0);
    if g == h {
      XorSecondInjective(a, b, g);
    }
    if a == b {
      XorInjective(g, h, a);
    }
  }

  lemma {:induction false} MurmurSeparates(p: seq<byte>, a: byte, b: byte)
    requires a != b
    ensures MurmurMix(p + [a]) != MurmurMix(p + [b])
  {
    assert (p + [a])[..|p|] == p && (p + [b])[..|p|] == p;
    hide MixByte;
    if MurmurMix(p + [a]) == MurmurMix(p + [b]) {
      MixByteInjective(MurmurMix(p), a, MurmurMix(p), b);
    }
  }

  // ---- an instance ----

  function Digit(x: nat, y: nat): nat {
    if x == y then 0 else 1
  }

  lemma {:induction false} XorDigit(a: nat, b: nat, x: nat, y: nat)
    requires x < 2 && y < 2
    ensures BitwiseXor(2 * a + x, 2 * b + y) == 2 * BitwiseXor(a, b) + Digit(x, y)
  {
    hide BitwiseXor;
    XorHalves(2 * a + x, 2 * b + y);
  }

  lemma {:induction false} XorFourDigits(a: nat, b: nat, p: nat, q: nat, r: nat, s: nat, t: nat, u: nat, v: nat, w: nat)
    requires p < 2 && q < 2 && r < 2 && s < 2 && t < 2 && u < 2 && v < 2 && w < 2
    ensures BitwiseXor(16 * a + 8 * p + 4 * q + 2 * r + s, 16 * b + 8 * t + 4 * u + 2 * v + w)
         == 16 * BitwiseXor(a, b) + 8 * Digit(p, t) + 4 * Digit(q, u) + 2 * Digit(r, v) + Digit(s, w)
  {
    hide *;
    XorDigit(a, b, p, t);
    XorDigit(2 * a + p, 2 * b + t, q, u);
    XorDigit(4 * a + 2 * p + q, 4 * b + 2 * t + u, r, v);
    XorDigit(8 * a + 4 * p + 2 * q + r, 8 * b + 4 * t + 2 * u + v, s, w);
  }

  lemma {:induction false} XorsOfA()
    ensures BitwiseXor(0x811C9DC5, 0x61) == 0x811C9DA4
    ensures BitwiseXor(0xDEADBEEF, 0x61) == 0xDEADBE8E
  {
    hide BitwiseXor;
    XorZero(0x811C);
    XorFourDigits(0x811C, 0x0, 1, 0, 0, 1, 0, 0, 0, 0);
    XorFourDigits(0x811C9, 0x0, 1, 1, 0, 1, 0, 0, 0, 0);
    XorFourDigits(0x811C9D, 0x0, 1, 1, 0, 0, 0, 1, 1, 0);
    XorFourDigits(0x811C9DC, 0x6, 0, 1, 0, 1, 0, 0, 0, 1);
    XorZero(0xDEAD);
    XorFourDigits(0xDEAD, 0x0, 1, 0, 1, 1, 0, 0, 0, 0);
    XorFourDigits(0xDEADB, 0x0, 1, 1, 1, 0, 0, 0, 0, 0);
    XorFourDigits(0xDEADBE, 0x0, 1, 1, 1, 0, 0, 1, 1, 0);
    XorFourDigits(0xDEADBEE, 0x6, 1, 1, 1, 1, 0, 0, 0, 1);
  }

  lemma {:induction false} FoldsOfA()
    ensures BitwiseXor(0xDEADBE8E, 0xDEAD) == 0xDEAD6023
    ensures BitwiseXor(0x7961E511, 0x7961) == 0x79619C70
    ensures BitwiseXor(0x2E589DD0, 0x2E58) == 0x2E58B388
  {
    hide BitwiseXor;
    XorZero(0xDEAD);
    XorFourDigits(0xDEAD, 0x0, 1, 0, 1, 1, 1, 1, 0, 1);
    XorFourDigits(0xDEADB, 0xD, 1, 1, 1, 0, 1, 1, 1, 0);
    XorFourDigits(0xDEADBE, 0xDE, 1, 0, 0, 0, 1, 0, 1, 0);
    XorFourDigits(0xDEADBE8, 0xDEA, 1, 1, 1, 0, 1, 1, 0, 1);
    XorZero(0x7961);
    XorFourDigits(0x7961, 0x0, 1, 1, 1, 0, 0, 1, 1, 1);
    XorFourDigits(0x7961E, 0x7, 0, 1, 0, 1, 1, 0, 0, 1);
    XorFourDigits(0x7961E5, 0x79, 0, 0, 0, 1, 0, 1, 1, 0);
    XorFourDigits(0x7961E51, 0x796, 0, 0, 0, 1, 0, 0, 0, 1);
    XorZero(0x2E58);
    XorFourDigits(0x2E58, 0x0, 1, 0, 0, 1, 0, 0, 1, 0);
    XorFourDigits(0x2E589, 0x2, 1, 1, 0, 1, 1, 1, 1, 0);
    XorFourDigits(0x2E589D, 0x2E, 1, 1, 0, 1, 0, 1, 0, 1);
    XorFourDigits(0x2E589DD, 0x2E5, 0, 0, 0, 0, 1, 0, 0, 0);
  }

  /** One byte of the other hash, with the quotients that the reductions drop and the high halves that are folded in. */
  lemma {:induction false} MurmurFrom(p: seq<byte>, b: byte, h: (u32, u32, u32), half: (nat, nat, nat), q: (nat, nat))
    requires h.0 == BitwiseXor(MurmurMix(p), b)
    requires BitwiseXor(h.0, half.0) * 0x45d9f3b == q.0 * 0x1_0000_0000 + h.1
    requires BitwiseXor(h.1, half.1) * 0x45d9f3b == q.1 * 0x1_0000_0000 + h.2
    requires 65536 * half.0 <= h.0 < 65536 * half.0 + 65536
    requires 65536 * half.1 <= h.1 < 65536 * half.1 + 65536
    requires 65536 * half.2 <= h.2 < 65536 * half.2 + 65536
    ensures MurmurMix(p + [b]) == BitwiseXor(h.2, half.2)
  {
    hide *;
    MurmurStep(p, b);
    HighHalf(h.0, half.0);
    HighHalf(h.1, half.1);
    HighHalf(h.2, half.2);
    Quotient(BitwiseXor(h.0, half.0) * 0x45d9f3b, q.0, h.1, 0x1_0000_0000);
    Quotient(BitwiseXor(h.1, half.1) * 0x45d9f3b, q.1, h.2, 0x1_0000_0000);
  }

  lemma {:induction false} SeedOfMurmur()
    ensures MurmurMix([]) == 0xDEADBEEF
  {
  }

  lemma {:induction false} HighHalf(h: nat, half: nat)
    requires 65536 * half <= h < 65536 * half + 65536
    ensures h / 65536 == half
  {
  }

  /** The hashes of the one-byte key "a". */
  lemma {:induction false} HashesOfA()
    ensures Fnv1a([0x61]) == 0xE40C292C && MurmurMix([0x61]) == 0x2E58B388
  {
    assert [] + [0x61] == [0x61];
    hide *;
    XorsOfA();
    FoldsOfA();
    FnvStep([], 0x61);
    Quotient(0x811C9DA4 * 16777619, 8461672, 0xE40C292C, 0x1_0000_0000);
    SeedOfMurmur();
    MurmurFrom([], 0x61, (0xDEADBE8E, 0x7961E511, 0x2E589DD0), (0xDEAD, 0x7961, 0x2E58), (63710461, 34728551));
  }

  lemma {:induction false} XorsOfB()
    ensures BitwiseXor(0x811C9DC5, 0x62) == 0x811C9DA7
    ensures BitwiseXor(0xDEADBEEF, 0x62) == 0xDEADBE8D
  {
    hide BitwiseXor;
    XorZero(0x811C);
    XorFourDigits(0x811C, 0x0, 1, 0, 0, 1, 0, 0, 0, 0);
    XorFourDigits(0x811C9, 0x0, 1, 1, 0, 1, 0, 0, 0, 0);
    XorFourDigits(0x811C9D, 0x0, 1, 1, 0, 0, 0, 1, 1, 0);
    XorFourDigits(0x811C9DC, 0x6, 0, 1, 0, 1, 0, 0, 1, 0);
    XorZero(0xDEAD);
    XorFourDigits(0xDEAD, 0x0, 1, 0, 1, 1, 0, 0, 0, 0);
    XorFourDigits(0xDEADB, 0x0, 1, 1, 1, 0, 0, 0, 0, 0);
    XorFourDigits(0xDEADBE, 0x0, 1, 1, 1, 0, 0, 1, 1, 0);
    XorFourDigits(0xDEADBEE, 0x6, 1, 1, 1, 1, 0, 0, 1, 0);
  }

  lemma {:induction false} FoldsOfB()
    ensures BitwiseXor(0xDEADBE8D, 0xDEAD) == 0xDEAD6020
    ensures BitwiseXor(0x6C490760, 0x6C49) == 0x6C496B29
    ensures BitwiseXor(0x205F2973, 0x205F) == 0x205F092C
  {
    hide BitwiseXor;
    XorZero(0xDEAD);
    XorFourDigits(0xDEAD, 0x0, 1, 0, 1, 1, 1, 1, 0, 1);
    XorFourDigits(0xDEADB, 0xD, 1, 1, 1, 0, 1, 1, 1, 0);
    XorFourDigits(0xDEADBE, 0xDE, 1, 0, 0, 0, 1, 0, 1, 0);
    XorFourDigits(0xDEADBE8, 0xDEA, 1, 1, 0, 1, 1, 1, 0, 1);
    XorZero(0x6C49);
    XorFourDigits(0x6C49, 0x0, 0, 0, 0, 0, 0, 1, 1, 0);
    XorFourDigits(0x6C490, 0x6, 0, 1, 1, 1, 1, 1, 0, 0);
    XorFourDigits(0x6C4907, 0x6C, 0, 1, 1, 0, 0, 1, 0, 0);
    XorFourDigits(0x6C49076, 0x6C4, 0, 0, 0, 0, 1, 0, 0, 1);
    XorZero(0x205F);
    XorFourDigits(0x205F, 0x0, 0, 0, 1, 0, 0, 0, 1, 0);
    XorFourDigits(0x205F2, 0x2, 1, 0, 0, 1, 0, 0, 0, 0);
    XorFourDigits(0x205F29, 0x20, 0, 1, 1, 1, 0, 1, 0, 1);
    XorFourDigits(0x205F297, 0x205, 0, 0, 1, 1, 1, 1, 1, 1);
  }

  /** The hashes of the one-byte key "b". */
  lemma {:induction false} HashesOfB()
    ensures Fnv1a([0x62]) == 0xE70C2DE5 && MurmurMix([0x62]) == 0x205F092C
  {
    assert [] + [0x62] == [0x62];
    hide *;
    XorsOfB();
    FoldsOfB();
    FnvStep([], 0x62);
    Quotient(0x811C9DA7 * 16777619, 8461672, 0xE70C2DE5, 0x1_0000_0000);
    SeedOfMurmur();
    MurmurFrom([], 0x62, (0xDEADBE8D, 0x6C490760, 0x205F2973), (0xDEAD, 0x6C49, 0x205F), (63710461, 30982067));
  }

  /** A probe of a 64-bit filter, with the quotients that the two reductions drop. */
  lemma {:induction false} ProbeAt(key: seq<byte>, i: nat, q: nat, r: nat, d: nat, pos: nat)
    requires Fnv1a(key) + i * MurmurMix(key) == q * 0x1_0000_0000 + r
    requires r == d * 64 + pos && r < 0x1_0000_0000 && pos < 64
    ensures Position(key, i, 64) == pos
  {
    hide *;
    PositionIs(key, i, 64);
    Quotient(Fnv1a(key) + i * MurmurMix(key), q, r, 0x1_0000_0000);
    Quotient(r, d, pos, 64);
  }

  lemma {:induction false} PositionIs(key: seq<byte>, i: nat, m: u32)
    requires m > 0
    ensures Position(key, i, m) == ((Fnv1a(key) + i * MurmurMix(key)) % 0x1_0000_0000) % m
  {
    hide Fnv1a;
    hide MurmurMix;
  }

  lemma {:induction false} ProbesOfLetters()
    ensures Position([0x61], 0, 64) == 44 && Position([0x61], 1, 64) == 52
    ensures Position([0x62], 0, 64) == 37 && Position([0x62], 1, 64) == 17
  {
    hide *;
    HashesOfA();
    HashesOfB();
    ProbeAt([0x61], 0, 0, 0xE40C292C, 59781284, 44);
    ProbeAt([0x61], 1, 1, 0x1264DCB4, 4821874, 52);
    ProbeAt([0x62], 0, 0, 0xE70C2DE5, 60567735, 37);
    ProbeAt([0x62], 1, 1, 0x76B3711, 1944796, 17);
  }

  lemma {:induction false} TwoProbes(f: Filter, key: seq<byte>)
    requires WellFormed(f) && f.k == 2 && f.m > 0 && (f.m - 1) / 8 < |f.bits|
    ensures var p, q := Position(key, 0, f.m), Position(key, 1, f.m);
            p / 8 < |f.bits| && q / 8 < |f.bits| && WithKey(f, key) == Filter(2, f.m, SetBit(SetBit(f.bits, p), q))
  {
    hide Position;
    hide SetBit;
    assert SetBits(f.bits, key, 1, f.m) == SetBit(SetBits(f.bits, key, 0, f.m), Position(key, 0, f.m));
  }

  lemma {:induction false} TwoProbed(f: Filter, key: seq<byte>)
    requires f.k == 2 && f.m > 0
    ensures MayContain(f, key) <==> Bit(f.bits, Position(key, 0, f.m)) && Bit(f.bits, Position(key, 1, f.m))
  {
    hide Position;
    hide Bit;
  }

  lemma {:induction false} NothingSet(f: Filter, p: nat)
    requires f == Empty(2, 64) && p < 64
    ensures WellFormed(f) && f.k == 2 && f.m == 64 && |f.bits| == 8 && !Bit(f.bits, p)
  {
    ZeroBits(8);
  }

  /** A filter of 64 bits and two hashes that holds "a" has bits 44 and 52 set, and refuses "b". */
  lemma {:induction false} AbsentIsRefused(f: Filter)
    requires f == Empty(2, 64)
    ensures WellFormed(f) && WithKey(f, [0x61]).m == 64
    ensures MayContain(WithKey(f, [0x61]), [0x61]) && !MayContain(WithKey(f, [0x61]), [0x62])
    ensures forall p: nat :: p < 64 ==> (Bit(WithKey(f, [0x61]).bits, p) <==> p == 44 || p == 52)
  {
    hide *;
    ProbesOfLetters();
    NothingSet(f, 0);
    TwoProbes(f, [0x61]);
    var g := WithKey(f, [0x61]);
    forall p: nat | p < 64 ensures Bit(g.bits, p) <==> p == 44 || p == 52 {
      NothingSet(f, p);
      SetThenGet(f.bits, 44, p);
      SetThenGet(SetBit(f.bits, 44), 52, p);
    }
    TwoProbed(g, [0x61]);
    TwoProbed(g, [0x62]);
  }
}
