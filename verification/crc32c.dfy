/**
 CRC32C (Castagnoli), section 12.1 of RFC 3720.

 A `uint32_t` register is its 32 bits, least significant first. The library's
 register is reflected: bit 0 carries the coefficient of x^31.
 */
module Crc32c {
  import opened Bytes

  type Bits = seq<bool>
  type Word = w: seq<bool> | |w| == 32 witness seq(32, _ => false)

  /** `v >> n` */
  function Shr(v: nat, n: nat): nat
    decreases n
  {
    if n == 0 then v else Shr(v / 2, n - 1)
  }

  /** The n low bits of v, least significant first. */
  function BitsOf(v: nat, n: nat): (b: Bits)
    ensures |b| == n
  {
    seq(n, i requires 0 <= i < n => Shr(v, i) % 2 == 1)
  }

  function ValueOf(b: Bits): nat {
    if b == [] then 0 else (if b[0] then 1 else 0) + 2 * ValueOf(b[1..])
  }

  function Xor(a: Bits, b: Bits): (c: Bits)
    requires |a| == |b|
    ensures |c| == |a| && forall i :: 0 <= i < |a| ==> c[i] == (a[i] != b[i])
  {
    seq(|a|, i requires 0 <= i < |a| => a[i] != b[i])
  }

  function Zeros(n: nat): (z: Bits)
    ensures |z| == n && forall i :: 0 <= i < n ==> !z[i]
  {
    seq(n, _ => false)
  }

  function Ones(n: nat): (z: Bits)
    ensures |z| == n && forall i :: 0 <= i < n ==> z[i]
  {
    seq(n, _ => true)
  }

  const POLY: Word := BitsOf(0x82F63B78, 32)

  // ---- the reflected shift register ----

  /** `(c >> 1)`, folding POLY in when the bit shifted out is set. */
  function BitStep(c: Word): Word {
    if c[0] then Xor(c[1..] + [false], POLY) else c[1..] + [false]
  }

  function BitSteps(c: Word, n: nat): Word
    decreases n
  {
    if n == 0 then c else BitSteps(BitStep(c), n - 1)
  }

  /** Absorbs a bit string one bit at a time. */
  function Absorb(c: Word, m: Bits): Word
    decreases |m|
  {
    if m == [] then c else Absorb(BitStep(c[0 := c[0] != m[0]]), m[1..])
  }

  function MessageBits(s: seq<byte>): (m: Bits)
    ensures |m| == 8 * |s|
  {
    if s == [] then [] else BitsOf(s[0], 8) + MessageBits(s[1..])
  }

  /** The checksum of s continued from a finished checksum `seed`. */
  function Crc(s: seq<byte>, seed: Word): Word {
    Xor(Absorb(Xor(seed, Ones(32)), MessageBits(s)), Ones(32))
  }

  lemma {:induction false} ShrByte(v: nat, n: nat)
    ensures Shr(v, n + 8) == Shr(v / 256, n)
  {
    hide Shr;
    ShrNext(v, n + 7);
    ShrNext(v / 2, n + 6);
    ShrNext(v / 4, n + 5);
    ShrNext(v / 8, n + 4);
    ShrNext(v / 16, n + 3);
    ShrNext(v / 32, n + 2);
    ShrNext(v / 64, n + 1);
    ShrNext(v / 128, n);
  }

  lemma {:induction false} ShrNext(v: nat, n: nat)
    ensures Shr(v, n + 1) == Shr(v / 2, n)
  {
  }

  lemma {:induction false} PolyHighestBit()
    ensures Shr(0x82F63B78, 31) == 1
  {
    ShrByte(0x82F63B78, 23);
    ShrByte(0x82F63B, 15);
    ShrByte(0x82F6, 7);
    assert Shr(0x82, 7) == Shr(0x20, 5);
    assert Shr(0x20, 5) == Shr(0x8, 3);
    assert Shr(0x8, 3) == Shr(2, 1);
    assert Shr(2, 1) == Shr(1, 0);
  }

  lemma {:induction false} PolyTopBit()
    ensures POLY[31]
  {
    PolyHighestBit();
  }

  // ---- linearity and invertibility ----

  lemma {:induction false} BitStepLinear(a: Word, b: Word)
    ensures BitStep(Xor(a, b)) == Xor(BitStep(a), BitStep(b))
  {
    var x := BitStep(Xor(a, b));
    var y := Xor(BitStep(a), BitStep(b));
    forall i | 0 <= i < 32 ensures x[i] == y[i] {
    }
  }

  lemma {:induction false} BitStepsLinear(a: Word, b: Word, n: nat)
    ensures BitSteps(Xor(a, b), n) == Xor(BitSteps(a, n), BitSteps(b, n))
    decreases n
  {
    if n > 0 {
      BitStepLinear(a, b);
      BitStepsLinear(BitStep(a), BitStep(b), n - 1);
    }
  }

  lemma {:induction false} BitStepInjective(a: Word, b: Word)
    requires BitStep(a) == BitStep(b)
    ensures a == b
  {
    PolyTopBit();
    assert BitStep(a)[31] == a[0] && BitStep(b)[31] == b[0];
    forall i | 1 <= i < 32 ensures a[i] == b[i] {
      assert BitStep(a)[i - 1] == BitStep(b)[i - 1];
    }
  }

  lemma {:induction false} BitStepsInjective(a: Word, b: Word, n: nat)
    requires BitSteps(a, n) == BitSteps(b, n)
    ensures a == b
    decreases n
  {
    if n > 0 {
      BitStepsInjective(BitStep(a), BitStep(b), n - 1);
      BitStepInjective(a, b);
    }
  }

  lemma {:induction false} AbsorbInjective(c: Word, d: Word, m: Bits)
    requires Absorb(c, m) == Absorb(d, m)
    ensures c == d
    decreases |m|
  {
    if m != [] {
      var c', d' := c[0 := c[0] != m[0]], d[0 := d[0] != m[0]];
      AbsorbInjective(BitStep(c'), BitStep(d'), m[1..]);
      BitStepInjective(c', d');
      assert c'[0] == d'[0] && c'[1..] == d'[1..];
      assert c == [c[0]] + c'[1..] && d == [d[0]] + d'[1..];
    }
  }

  // ---- streams ----

  lemma {:induction false} AbsorbConcat(c: Word, a: Bits, b: Bits)
    ensures Absorb(c, a + b) == Absorb(Absorb(c, a), b)
    decreases |a|
  {
    if a == [] {
      assert a + b == b;
    } else {
      AbsorbConcat(BitStep(c[0 := c[0] != a[0]]), a[1..], b);
      assert (a + b)[1..] == a[1..] + b;
    }
  }

  lemma {:induction false} MessageBitsConcat(s: seq<byte>, t: seq<byte>)
    ensures MessageBits(s + t) == MessageBits(s) + MessageBits(t)
  {
    hide BitsOf;
    if s == [] {
      assert s + t == t;
      assert [] + MessageBits(t) == MessageBits(t);
    } else {
      MessageBitsConcat(s[1..], t);
      assert (s + t)[0] == s[0] && (s + t)[1..] == s[1..] + t;
      Regroup(BitsOf(s[0], 8), MessageBits(s[1..]), MessageBits(t));
    }
  }

  lemma {:induction false} Regroup<T>(a: seq<T>, b: seq<T>, c: seq<T>)
    ensures a + (b + c) == (a + b) + c
  {
  }

  /** Continuing a finished checksum over more bytes is the checksum of the whole stream. */
  lemma {:induction false} CrcChaining(a: seq<byte>, b: seq<byte>, seed: Word)
    ensures Crc(b, Crc(a, seed)) == Crc(a + b, seed)
  {
    var start := Xor(seed, Ones(32));
    MessageBitsConcat(a, b);
    AbsorbConcat(start, MessageBits(a), MessageBits(b));
    assert Xor(Crc(a, seed), Ones(32)) == Absorb(start, MessageBits(a));
  }

  // ---- up to 32 message bits act as one word ----

  lemma {:induction false} AbsorbWord(c: Word, e: Bits)
    requires |e| <= 32
    ensures Absorb(c, e) == BitSteps(Xor(c, e + Zeros(32 - |e|)), |e|)
    decreases |e|
  {
    if e == [] {
      assert Xor(c, Zeros(32)) == c;
    } else {
      var first := c[0 := c[0] != e[0]];
      var later := [false] + e[1..] + Zeros(32 - |e|);
      AbsorbWord(BitStep(first), e[1..]);
      WordSplit(c, e);
      BitStepLinear(first, later);
      hide BitStep;
      hide Xor;
    }
  }

  lemma {:induction false} WordSplit(c: Word, e: Bits)
    requires 0 < |e| <= 32
    ensures var later := [false] + e[1..] + Zeros(32 - |e|);
            Xor(c, e + Zeros(32 - |e|)) == Xor(c[0 := c[0] != e[0]], later)
            && BitStep(later) == e[1..] + Zeros(32 - |e[1..]|)
  {
  }

  lemma {:induction false} ZeroSteps(r: Bits, k: nat)
    requires |r| + k == 32
    ensures BitSteps(Zeros(k) + r, k) == r + Zeros(k)
    decreases k
  {
    if k == 0 {
      assert Zeros(k) + r == r == r + Zeros(k);
    } else {
      assert BitStep(Zeros(k) + r) == Zeros(k - 1) + (r + [false]);
      ZeroSteps(r + [false], k - 1);
      assert (r + [false]) + Zeros(k - 1) == r + Zeros(k);
    }
  }

  // ---- every burst of at most 32 bits is detected ----

  lemma {:induction false} BurstChangesRegister(c: Word, u: Bits, v: Bits)
    requires |u| == |v| <= 32 && u != v
    ensures Absorb(c, u) != Absorb(c, v)
  {
    if Absorb(c, u) == Absorb(c, v) {
      AbsorbWord(c, u);
      AbsorbWord(c, v);
      var u', v' := u + Zeros(32 - |u|), v + Zeros(32 - |v|);
      BitStepsInjective(Xor(c, u'), Xor(c, v'), |u|);
      forall i | 0 <= i < |u| ensures u[i] == v[i] {
        assert Xor(c, u')[i] == Xor(c, v')[i];
        assert u'[i] == u[i] && v'[i] == v[i];
      }
    }
  }

  lemma {:induction false} BitsOfNext(v: nat, n: nat)
    ensures BitsOf(v, n + 1) == [v % 2 == 1] + BitsOf(v / 2, n)
  {
  }

  lemma {:induction false} BitsOfInjective(a: nat, b: nat, n: nat)
    requires BitsOf(a, n) == BitsOf(b, n) && Shr(a, n) == Shr(b, n)
    ensures a == b
    decreases n
  {
    if n > 0 {
      BitsOfNext(a, n - 1);
      BitsOfNext(b, n - 1);
      assert BitsOf(a, n)[0] == BitsOf(b, n)[0];
      assert BitsOf(a, n)[1..] == BitsOf(b, n)[1..];
      BitsOfInjective(a / 2, b / 2, n - 1);
    }
  }

  lemma {:induction false} MessageBitsInjective(s: seq<byte>, t: seq<byte>)
    requires |s| == |t| && MessageBits(s) == MessageBits(t)
    ensures s == t
  {
    if s != [] {
      assert MessageBits(s)[..8] == BitsOf(s[0], 8) && MessageBits(t)[..8] == BitsOf(t[0], 8);
      assert MessageBits(s)[8..] == MessageBits(s[1..]) && MessageBits(t)[8..] == MessageBits(t[1..]);
      ShrByte(s[0], 0);
      ShrByte(t[0], 0);
      BitsOfInjective(s[0], t[0], 8);
      MessageBitsInjective(s[1..], t[1..]);
    }
  }

  /** A change confined to four consecutive bytes always changes the checksum. */
  lemma {:induction false} BurstDetected(p: seq<byte>, u: seq<byte>, v: seq<byte>, q: seq<byte>, seed: Word)
    requires |u| == |v| <= 4 && u != v
    ensures Crc(p + u + q, seed) != Crc(p + v + q, seed)
  {
    var c := Absorb(Xor(seed, Ones(32)), MessageBits(p));
    StreamSplit(p, u, q, seed);
    StreamSplit(p, v, q, seed);
    if Crc(p + u + q, seed) == Crc(p + v + q, seed) {
      XorOnesInjective(Absorb(Absorb(c, MessageBits(u)), MessageBits(q)),
        Absorb(Absorb(c, MessageBits(v)), MessageBits(q)));
      AbsorbInjective(Absorb(c, MessageBits(u)), Absorb(c, MessageBits(v)), MessageBits(q));
      if MessageBits(u) == MessageBits(v) {
        MessageBitsInjective(u, v);
      }
      BurstChangesRegister(c, MessageBits(u), MessageBits(v));
    }
  }

  lemma {:induction false} StreamSplit(p: seq<byte>, u: seq<byte>, q: seq<byte>, seed: Word)
    ensures Crc(p + u + q, seed)
         == Xor(Absorb(Absorb(Absorb(Xor(seed, Ones(32)), MessageBits(p)), MessageBits(u)), MessageBits(q)), Ones(32))
  {
    var start := Xor(seed, Ones(32));
    MessageBitsConcat(p + u, q);
    MessageBitsConcat(p, u);
    AbsorbConcat(start, MessageBits(p + u), MessageBits(q));
    AbsorbConcat(start, MessageBits(p), MessageBits(u));
  }

  lemma {:induction false} XorOnesInjective(a: Word, b: Word)
    requires Xor(a, Ones(32)) == Xor(b, Ones(32))
    ensures a == b
  {
    forall i | 0 <= i < 32 ensures a[i] == b[i] {
      assert Xor(a, Ones(32))[i] == Xor(b, Ones(32))[i];
    }
  }

  // ---- the polynomial definition ----

  /** The generator 0x11EDC6F41, highest coefficient first. */
  const GENERATOR: Bits := [true] + POLY

  /** Remainder of schoolbook long division over GF(2); index 0 is the highest coefficient. */
  function Remainder(d: Bits): Word
    requires |d| >= 32
    decreases |d|
  {
    if |d| == 32 then d
    else if d[0] then Remainder(Subtract(d))
    else Remainder(d[1..])
  }

  /** The dividend that a register c and a pending message m stand for. */
  function Dividend(c: Word, m: Bits): (d: Bits)
    ensures |d| == |m| + 32
  {
    Xor(m + Zeros(32), c + Zeros(|m|))
  }

  function Subtract(d: Bits): (e: Bits)
    requires |d| > 32
    ensures |e| == |d| - 1
  {
    (Xor(d[..33], GENERATOR) + d[33..])[1..]
  }

  lemma {:induction false} SubtractAt(d: Bits, i: nat)
    requires |d| > 32 && i < |d| - 1
    ensures Subtract(d)[i] == (if i < 32 then d[i + 1] != POLY[i] else d[i + 1])
  {
  }

  lemma {:induction false} DividendAt(c: Word, m: Bits, i: nat)
    requires i < |m| + 32
    ensures Dividend(c, m)[i] == ((i < |m| && m[i]) != (i < 32 && c[i]))
  {
  }

  lemma {:induction false} BitStepAt(c: Word, i: nat)
    requires i < 32
    ensures BitStep(c)[i] == ((i < 31 && c[i + 1]) != (c[0] && POLY[i]))
  {
  }

  lemma {:induction false} DivisionStep(c: Word, m: Bits)
    requires m != []
    ensures var d, next := Dividend(c, m), Dividend(BitStep(c[0 := c[0] != m[0]]), m[1..]);
            next == if d[0] then Subtract(d) else d[1..]
  {
    var c' := c[0 := c[0] != m[0]];
    var d, next := Dividend(c, m), Dividend(BitStep(c'), m[1..]);
    DividendAt(c, m, 0);
    forall i | 0 <= i < |next| ensures next[i] == if d[0] then Subtract(d)[i] else d[1..][i] {
      DividendAt(BitStep(c'), m[1..], i);
      DividendAt(c, m, i + 1);
      SubtractAt(d, i);
      if i < 32 {
        BitStepAt(c', i);
      }
    }
  }

  lemma {:induction false} RegisterIsLongDivision(c: Word, m: Bits)
    ensures Absorb(c, m) == Remainder(Dividend(c, m))
    decreases |m|
  {
    if m == [] {
      assert Dividend(c, m) == c;
    } else {
      DivisionStep(c, m);
      RegisterIsLongDivision(BitStep(c[0 := c[0] != m[0]]), m[1..]);
    }
  }

  /**
   Section 12.1 of RFC 3720: complement the first 32 bits of the message padded
   with 32 zeros, divide by the generator, complement the remainder.
   */
  lemma {:induction false} CrcIsPolynomialRemainder(s: seq<byte>)
    ensures var m := MessageBits(s);
            Crc(s, Zeros(32)) == Xor(Remainder(Xor(m + Zeros(32), Ones(32) + Zeros(|m|))), Ones(32))
  {
    assert Xor(Zeros(32), Ones(32)) == Ones(32);
    RegisterIsLongDivision(Ones(32), MessageBits(s));
  }


  lemma {:induction false} ShrFour(v: nat, n: nat)
    ensures Shr(v, n + 4) == Shr(v / 16, n)
    ensures Shr(v, 1) == v / 2 && Shr(v, 2) == v / 4 && Shr(v, 3) == v / 8
  {
    assert Shr(v, n + 4) == Shr(v / 4, n + 2);
    assert Shr(v, 3) == Shr(v / 4, 1);
  }

  lemma {:induction false} ShrSmall(v: nat)
    ensures Shr(v, 0) == v && Shr(v, 1) == v / 2 && Shr(v, 2) == v / 4 && Shr(v, 3) == v / 8
    ensures Shr(v, 4) == v / 16 && Shr(v, 5) == v / 16 / 2 && Shr(v, 6) == v / 16 / 4 && Shr(v, 7) == v / 16 / 8
  {
    ShrFour(v, 0);
    ShrFour(v, 1);
    ShrFour(v, 2);
    ShrFour(v, 3);
    ShrFour(v / 16, 0);
  }

  /** The low bytes of a and b are bit reversals of each other. */
  ghost predicate Mirrored(a: nat, b: nat) {
    forall r :: 0 <= r < 8 ==> Shr(a, r) % 2 == Shr(b, 7 - r) % 2
  }

  lemma {:induction false} MirrorByte(a: nat, b: nat)
    requires a % 2 == b / 16 / 8 % 2 && a / 2 % 2 == b / 16 / 4 % 2 && a / 4 % 2 == b / 16 / 2 % 2
             && a / 8 % 2 == b / 16 % 2
    requires a / 16 % 2 == b / 8 % 2 && a / 16 / 2 % 2 == b / 4 % 2 && a / 16 / 4 % 2 == b / 2 % 2
             && a / 16 / 8 % 2 == b % 2
    ensures Mirrored(a, b)
  {
    ShrSmall(a);
    ShrSmall(b);
  }

  lemma {:induction false} MirrorWord(p0: nat, p1: nat, p2: nat, p3: nat, g0: nat, g1: nat, g2: nat, g3: nat, k: nat)
    requires p1 == p0 / 256 && p2 == p1 / 256 && p3 == p2 / 256
    requires g1 == g0 / 256 && g2 == g1 / 256 && g3 == g2 / 256
    requires Mirrored(p0, g3) && Mirrored(p1, g2) && Mirrored(p2, g1) && Mirrored(p3, g0)
    requires k < 32
    ensures Shr(p0, k) % 2 == Shr(g0, 31 - k) % 2
  {
    hide Shr;
    var r := k % 8;
    ShrBytes(p0, p1, p2, p3, r);
    ShrBytes(g0, g1, g2, g3, 7 - r);
    if k < 8 {
      assert 31 - k == (7 - r) + 24;
    } else if k < 16 {
      assert k == r + 8 && 31 - k == (7 - r) + 16;
    } else if k < 24 {
      assert k == r + 16 && 31 - k == (7 - r) + 8;
    } else {
      assert k == r + 24 && 31 - k == 7 - r;
    }
  }

  lemma {:induction false} ShrBytes(v0: nat, v1: nat, v2: nat, v3: nat, r: nat)
    requires v1 == v0 / 256 && v2 == v1 / 256 && v3 == v2 / 256
    ensures Shr(v0, r + 8) == Shr(v1, r) && Shr(v0, r + 16) == Shr(v2, r) && Shr(v0, r + 24) == Shr(v3, r)
  {
    ShrByte(v0, r);
    ShrByte(v0, r + 8);
    ShrByte(v1, r);
    ShrByte(v0, r + 16);
    ShrByte(v1, r + 8);
    ShrByte(v2, r);
  }

  lemma {:induction false} PolyMirrorsGenerator(k: nat)
    requires k < 32
    ensures Shr(0x82F6_3B78, k) % 2 == Shr(0x1_1EDC_6F41, 31 - k) % 2
  {
    MirrorByte(0x82F6_3B78, 0x1_1E);
    MirrorByte(0x82F6_3B, 0x1_1EDC);
    MirrorByte(0x82F6, 0x1_1EDC_6F);
    MirrorByte(0x82, 0x1_1EDC_6F41);
    MirrorWord(0x82F6_3B78, 0x82F6_3B, 0x82F6, 0x82, 0x1_1EDC_6F41, 0x1_1EDC_6F, 0x1_1EDC, 0x1_1E, k);
  }

  /** GENERATOR is 0x11EDC6F41 written highest coefficient first. */
  lemma {:induction false} GeneratorIsCastagnoli(i: nat)
    requires i < 33
    ensures GENERATOR[i] == (Shr(0x1_1EDC_6F41, 32 - i) % 2 == 1)
  {
    if i == 0 {
      ShrBytes(0x1_1EDC_6F41, 0x1_1EDC_6F, 0x1_1EDC, 0x1_1E, 8);
      ShrByte(0x1_1E, 0);
    } else {
      PolyMirrorsGenerator(i - 1);
    }
  }

  // ---- the table-driven loop ----

  lemma {:induction false} ZeroBits(n: nat)
    ensures BitsOf(0, n) == Zeros(n)
  {
    if n > 0 {
      ZeroBits(n - 1);
      BitsOfNext(0, n - 1);
    }
  }

  lemma {:induction false} BitsOfValue(x: Bits, n: nat)
    requires |x| <= n
    ensures BitsOf(ValueOf(x), n) == x + Zeros(n - |x|)
  {
    if x == [] {
      ZeroBits(n);
    } else {
      BitsOfValue(x[1..], n - 1);
      BitsOfNext(ValueOf(x), n - 1);
    }
  }

  lemma {:induction false} ValueOfBits(v: nat, n: nat)
    requires Shr(v, n) == 0
    ensures ValueOf(BitsOf(v, n)) == v
    decreases n
  {
    if n > 0 {
      ValueOfBits(v / 2, n - 1);
      BitsOfNext(v, n - 1);
    }
  }

  lemma {:induction false} ValueOfByte(x: Bits)
    requires |x| == 8
    ensures ValueOf(x) < 256
  {
    ValueBound(x);
    assert Pow2(8) == 256;
  }

  /** One round of the byte loop: `(crc >> 8) ^ tbl[(crc ^ b) & 0xFF]`. */
  lemma {:induction false} TableRound(c: Word, b: byte)
    ensures var x := Xor(c[..8], BitsOf(b, 8));
            ValueOf(x) < 256
            && Xor(c[8..] + Zeros(8), BitSteps(BitsOf(ValueOf(x), 32), 8)) == Absorb(c, BitsOf(b, 8))
  {
    var bits := BitsOf(b, 8);
    var x := Xor(c[..8], bits);
    ValueOfByte(x);
    BitsOfValue(x, 32);
    AbsorbWord(c, bits);
    LowAndHigh(c, bits);
    hide *;
    BitStepsLinear(Zeros(8) + c[8..], x + Zeros(24), 8);
    ZeroSteps(c[8..], 8);
  }

  lemma {:induction false} LowAndHigh(c: Word, bits: Bits)
    requires |bits| == 8
    ensures Xor(c, bits + Zeros(24)) == Xor(Zeros(8) + c[8..], Xor(c[..8], bits) + Zeros(24))
  {
  }

  method BuildTable() returns (t: array<Word>)
    ensures fresh(t) && t.Length == 256
    ensures forall i :: 0 <= i < 256 ==> t[i] == BitSteps(BitsOf(i, 32), 8)
  {
    hide BitsOf;
    hide Xor;
    t := new Word[256](_ => Zeros(32));
    for i := 0 to 256
      invariant forall k :: 0 <= k < i ==> t[k] == BitSteps(BitsOf(k, 32), 8)
    {
      var crc: Word := BitsOf(i, 32);
      for j := 0 to 8
        invariant BitSteps(crc, 8 - j) == BitSteps(BitsOf(i, 32), 8)
      {
        ghost var before := crc;
        crc := if crc[0] then Xor(crc[1..] + [false], POLY) else crc[1..] + [false];
        assert crc == BitStep(before);
      }
      t[i] := crc;
    }
  }

  /** The byte loop computes exactly the bit-serial checksum. */
  method Compute(tbl: array<Word>, data: seq<byte>, seed: Word) returns (r: Word)
    requires tbl.Length == 256 && forall i :: 0 <= i < 256 ==> tbl[i] == BitSteps(BitsOf(i, 32), 8)
    ensures r == Crc(data, seed)
  {
    var crc: Word := Xor(seed, Ones(32));
    for i := 0 to |data|
      invariant Absorb(crc, MessageBits(data[i..])) == Absorb(Xor(seed, Ones(32)), MessageBits(data))
    {
      var index := ValueOf(Xor(crc[..8], BitsOf(data[i], 8)));
      TableRound(crc, data[i]);
      AbsorbConcat(crc, BitsOf(data[i], 8), MessageBits(data[i + 1..]));
      assert data[i..][0] == data[i] && data[i..][1..] == data[i + 1..];
      crc := Xor(crc[8..] + Zeros(8), tbl[index]);
    }
    r := Xor(crc, Ones(32));
  }

  // ---- the stored checksum ----

  function Pow2(n: nat): nat {
    if n == 0 then 1 else 2 * Pow2(n - 1)
  }

  lemma {:induction false} Pow2Widths()
    ensures Pow2(8) == 0x100 && Pow2(16) == 0x1_0000 && Pow2(32) == TWO_32
  {
    assert Pow2(12) == 0x1000;
    assert Pow2(20) == 0x10_0000;
    assert Pow2(24) == 0x100_0000;
    assert Pow2(28) == 0x1000_0000;
  }

  lemma {:induction false} ValueBound(x: Bits)
    ensures ValueOf(x) < Pow2(|x|)
  {
    if x != [] {
      ValueBound(x[1..]);
    }
  }

  /** The four bytes `write_u32` stores for a checksum. */
  function CrcBytes(c: Word): (s: seq<byte>)
    ensures |s| == 4
  {
    EncodeLE(ValueOf(c), 4)
  }

  lemma {:induction false} CrcBytesRoundTrip(c: Word)
    ensures DecodeLE(CrcBytes(c)) == ValueOf(c) < TWO_32
  {
    ValueBound(c);
    Pow2Widths();
    Pow256Widths();
    LittleEndianRoundTrip(ValueOf(c), 4);
  }

  lemma {:induction false} ReadCrc(s: seq<byte>, c: Word) returns (v: u32)
    requires s == CrcBytes(c)
    ensures v == ValueOf(c) && s == EncodeLE(v, 4)
  {
    CrcBytesRoundTrip(c);
    v := ValueOf(c);
  }

  lemma {:induction false} ValueInjective(a: Bits, b: Bits)
    requires |a| == |b| && ValueOf(a) == ValueOf(b)
    ensures a == b
  {
    if a != [] {
      ValueInjective(a[1..], b[1..]);
      assert a == [a[0]] + a[1..] && b == [b[0]] + b[1..];
    }
  }
}
