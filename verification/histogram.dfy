/** The power-of-two latency histogram and what its percentiles mean. */
module Histograms {
  import opened Bytes

  const BUCKETS: nat := 64

  function Pow2(n: nat): (p: nat)
    ensures p > 0
  {
    if n == 0 then 1 else 2 * Pow2(n - 1)
  }

  /** Number of significant bits, `64 - clz`. */
  function Bits(v: nat): nat {
    if v == 0 then 0 else 1 + Bits(v / 2)
  }

  function BucketFor(us: u64): (b: nat)
    ensures b < BUCKETS
  {
    if Bits(us) < BUCKETS - 1 then Bits(us) else BUCKETS - 1
  }

  lemma {:induction false} BitsBound(v: nat)
    requires v > 0
    ensures Bits(v) >= 1 && Pow2(Bits(v) - 1) <= v < Pow2(Bits(v))
  {
    if v > 1 {
      BitsBound(v / 2);
    } else {
      assert Bits(0) == 0;
    }
  }

  lemma {:induction false} BitsMonotone(u: nat, v: nat)
    requires u <= v
    ensures Bits(u) <= Bits(v)
  {
    if u > 0 {
      BitsMonotone(u / 2, v / 2);
    }
  }

  // ---- counting samples ----

  function InBucket(s: seq<u64>, b: nat): nat {
    if s == [] then 0 else InBucket(s[..|s| - 1], b) + if BucketFor(s[|s| - 1]) == b then 1 else 0
  }

  /** Samples in buckets 0 to b. */
  function Cumulative(s: seq<u64>, b: nat): nat {
    if b == 0 then InBucket(s, 0) else Cumulative(s, b - 1) + InBucket(s, b)
  }

  /** Samples not above v. */
  function UpTo(s: seq<u64>, v: int): nat {
    if s == [] then 0 else UpTo(s[..|s| - 1], v) + if s[|s| - 1] <= v then 1 else 0
  }

  /** v is the k-th smallest sample. */
  predicate IsKth(s: seq<u64>, k: nat, v: u64) {
    UpTo(s, v - 1) < k <= UpTo(s, v)
  }

  lemma {:induction false} CumulativeSnoc(s: seq<u64>, b: nat)
    requires s != []
    ensures Cumulative(s, b) == Cumulative(s[..|s| - 1], b) + if BucketFor(s[|s| - 1]) <= b then 1 else 0
    decreases b
  {
    if b > 0 {
      CumulativeSnoc(s, b - 1);
    }
  }

  /** The count up to a value is the count up to its bucket or less, and at least the count of lower buckets. */
  lemma {:induction false} UpToByBuckets(s: seq<u64>, v: u64)
    ensures UpTo(s, v) <= Cumulative(s, BucketFor(v))
    ensures BucketFor(v) > 0 ==> Cumulative(s, BucketFor(v) - 1) <= UpTo(s, v - 1)
  {
    if s == [] {
      NoneCounted(BucketFor(v));
      if BucketFor(v) > 0 {
        NoneCounted(BucketFor(v) - 1);
      }
    } else {
      var x := s[|s| - 1];
      UpToByBuckets(s[..|s| - 1], v);
      CumulativeSnoc(s, BucketFor(v));
      if x <= v {
        BitsMonotone(x, v);
      }
      if BucketFor(v) > 0 {
        CumulativeSnoc(s, BucketFor(v) - 1);
        if v <= x {
          BitsMonotone(v, x);
        }
      }
    }
  }

  lemma {:induction false} NoneCounted(b: nat)
    ensures Cumulative([], b) == 0
  {
    if b > 0 {
      NoneCounted(b - 1);
    }
  }

  lemma {:induction false} CumulativeGrows(s: seq<u64>, a: nat, b: nat)
    requires a <= b
    ensures Cumulative(s, a) <= Cumulative(s, b)
    decreases b
  {
    if a < b {
      CumulativeGrows(s, a, b - 1);
    }
  }

  lemma {:induction false} AllCounted(s: seq<u64>)
    ensures Cumulative(s, BUCKETS - 1) == |s|
  {
    if s == [] {
      NoneCounted(BUCKETS - 1);
    } else {
      AllCounted(s[..|s| - 1]);
      CumulativeSnoc(s, BUCKETS - 1);
    }
  }

  // ---- percentiles ----

  /** p times n, with p above 1 counting as 1. */
  function Scaled(n: nat, p: real): real {
    (if p >= 1.0 then 1.0 else p) * n as real
  }

  /** The rank asked for: floor(p * n), at least 1. */
  function Rank(n: nat, p: real): (k: nat)
    ensures k >= 1
  {
    var t := Scaled(n, p).Floor;
    if t <= 0 then 1 else t
  }

  lemma {:induction false} RankBound(n: nat, p: real)
    requires n > 0
    ensures Rank(n, p) <= n
  {
    var q := if p >= 1.0 then 1.0 else p;
    assert q * n as real <= 1.0 * n as real;
  }

  lemma {:induction false} ScaledGrows(n: nat, p: real, q: real)
    requires p <= q
    ensures Scaled(n, p) <= Scaled(n, q)
  {
    var a, b := if p >= 1.0 then 1.0 else p, if q >= 1.0 then 1.0 else q;
    assert a <= b;
    assert a * n as real <= b * n as real;
  }

  lemma {:induction false} RankGrows(n: nat, p: real, q: real)
    requires p <= q
    ensures Rank(n, p) <= Rank(n, q)
  {
    ScaledGrows(n, p, q);
    hide Scaled;
  }

  /** The least bucket at or after b whose cumulative count reaches k. */
  function Reaching(s: seq<u64>, k: nat, b: nat): (i: nat)
    requires b < BUCKETS && k <= |s|
    ensures b <= i < BUCKETS
    decreases BUCKETS - b
  {
    AllCounted(s);
    if Cumulative(s, b) >= k || b == BUCKETS - 1 then b else Reaching(s, k, b + 1)
  }

  /** The midpoint a bucket reports. */
  function Midpoint(b: nat): real {
    if b == 0 then 0.5 else ((Pow2(b - 1) + Pow2(b)) / 2) as real
  }

  function Percentile(s: seq<u64>, p: real): real {
    if p <= 0.0 || s == [] then 0.0
    else
      RankBound(|s|, p);
      Midpoint(Reaching(s, Rank(|s|, p), 0))
  }

  lemma {:induction false} PercentileIs(s: seq<u64>, p: real)
    ensures p <= 0.0 || |s| == 0 ==> Percentile(s, p) == 0.0
    ensures p > 0.0 && |s| > 0 ==> Rank(|s|, p) <= |s| && Percentile(s, p) == Midpoint(Reaching(s, Rank(|s|, p), 0))
  {
    if |s| > 0 {
      RankBound(|s|, p);
    }
    hide Rank;
    hide Reaching;
    hide Midpoint;
  }

  lemma {:induction false} ReachingLeast(s: seq<u64>, k: nat, b: nat, i: nat)
    requires b <= i < BUCKETS && k <= |s| && Cumulative(s, i) >= k && (i == b || Cumulative(s, i - 1) < k)
    ensures Reaching(s, k, b) == i
    decreases i - b
  {
    AllCounted(s);
    if b < i {
      CumulativeGrows(s, b, i - 1);
      ReachingLeast(s, k, b + 1, i);
    }
  }

  /** The bucket found is the bucket of the k-th smallest sample. */
  lemma {:induction false} ReachesKth(s: seq<u64>, k: nat, v: u64)
    requires 1 <= k <= |s| && IsKth(s, k, v)
    ensures Reaching(s, k, 0) == BucketFor(v)
  {
    UpToByBuckets(s, v);
    ReachingLeast(s, k, 0, BucketFor(v));
  }

  lemma {:induction false} MidpointBounds(v: u64)
    requires 1 <= v < 0x8000_0000_0000_0000
    ensures 3.0 * v as real / 4.0 < Midpoint(BucketFor(v)) <= 3.0 * v as real / 2.0
  {
    var b := Bits(v);
    BitsBound(v);
    BitsMonotone(v, 0x7FFF_FFFF_FFFF_FFFF);
    TopBits(63);
    TopPower();
    assert b <= 63 && BucketFor(v) == b;
    var lo := Pow2(b - 1);
    assert Pow2(b) == 2 * lo;
    if b > 1 {
      assert lo == 2 * Pow2(b - 2);
      assert Midpoint(b) == (3 * Pow2(b - 2)) as real;
    }
  }

  lemma {:induction false} TopBits(n: nat)
    ensures Bits(Pow2(n) - 1) == n
  {
    if n > 0 {
      TopBits(n - 1);
      assert (Pow2(n) - 1) / 2 == Pow2(n - 1) - 1;
    }
  }

  lemma {:induction false} TopPower()
    ensures Pow2(63) == 0x8000_0000_0000_0000
  {
    assert Pow2(4) == 16 && Pow2(3) == 8;
    Pow2Adds(4, 4);
    Pow2Adds(8, 8);
    Pow2Adds(16, 16);
    assert Pow2(16) == 0x1_0000 && Pow2(32) == 0x1_0000_0000;
    Pow2Adds(4, 3);
    Pow2Adds(8, 7);
    Pow2Adds(16, 15);
    assert Pow2(15) == 0x8000 && Pow2(31) == 0x8000_0000;
    Pow2Adds(32, 31);
  }

  lemma {:induction false} DoubleFactor(x: nat, y: nat)
    ensures x * (2 * y) == 2 * (x * y)
  {
  }

  lemma {:induction false} Pow2Adds(a: nat, b: nat)
    ensures Pow2(a + b) == Pow2(a) * Pow2(b)
  {
    if b > 0 {
      Pow2Adds(a, b - 1);
      DoubleFactor(Pow2(a), Pow2(b - 1));
      assert Pow2(a + b) == 2 * Pow2(a + b - 1) && Pow2(b) == 2 * Pow2(b - 1);
      hide Pow2;
    }
  }

  /** k is the whole part of p times the number of samples, but at least 1. */
  ghost predicate Asks(n: nat, p: real, k: nat) {
    0.0 < p <= 1.0 && k >= 1 && p * n as real < (k + 1) as real && (k as real <= p * n as real || k == 1)
  }

  lemma {:induction false} AsksForRank(n: nat, p: real, k: nat)
    requires Asks(n, p, k)
    ensures Rank(n, p) == k
  {
    var x := p * n as real;
    if k as real <= x {
      assert x.Floor == k;
    } else {
      assert x.Floor <= 0;
    }
  }

  /** The percentile for p is the midpoint of the power-of-two interval around the k-th smallest sample, where k is the
      whole part of p times the number of samples, or 1: more than 3/4 of that sample and at most 3/2. The zero sample
      counts as one half, and samples beyond 2^63 are taken together. */
  lemma {:induction false} PercentileNearKth(s: seq<u64>, p: real, k: nat, v: u64)
    requires s != [] && Asks(|s|, p, k) && IsKth(s, k, v)
    ensures v == 0 ==> Percentile(s, p) == 0.5
    ensures 1 <= v < 0x8000_0000_0000_0000 ==> 3.0 * v as real / 4.0 < Percentile(s, p) <= 3.0 * v as real / 2.0
    ensures 1 <= v < 0x8000_0000_0000_0000 ==>
              exists e :: Pow2(e) <= v < 2 * Pow2(e) && Percentile(s, p) == (3 * Pow2(e) / 2) as real
    ensures v >= 0x8000_0000_0000_0000 ==> Percentile(s, p) == 6917529027641081856.0
  {
    AsksForRank(|s|, p, k);
    RankBound(|s|, p);
    ReachesKth(s, k, v);
    hide Reaching;
    hide Rank;
    hide Asks;
    hide IsKth;
    if v == 0 {
      assert BucketFor(v) == 0;
    } else if v < 0x8000_0000_0000_0000 {
      MidpointBounds(v);
      MidpointExact(v);
    } else {
      TopBucket(v);
    }
  }

  lemma {:induction false} MidpointExact(v: u64)
    requires 1 <= v < 0x8000_0000_0000_0000
    ensures exists e :: Pow2(e) <= v < 2 * Pow2(e) && Midpoint(BucketFor(v)) == (3 * Pow2(e) / 2) as real
  {
    var b := Bits(v);
    BitsBound(v);
    BitsMonotone(v, 0x7FFF_FFFF_FFFF_FFFF);
    TopBits(63);
    TopPower();
    assert BucketFor(v) == b && Pow2(b) == 2 * Pow2(b - 1);
  }

  lemma {:induction false} TopBucket(v: u64)
    requires v >= 0x8000_0000_0000_0000
    ensures Midpoint(BucketFor(v)) == 6917529027641081856.0
  {
    TopPower();
    TopBits(63);
    BitsMonotone(0x7FFF_FFFF_FFFF_FFFF, v);
    TopMidpoint();
    hide Pow2;
    hide Bits;
    hide Midpoint;
  }

  lemma {:induction false} TopMidpoint()
    ensures Midpoint(63) == 6917529027641081856.0
  {
    TopPower();
    assert Pow2(63) == 2 * Pow2(62);
    hide Pow2;
  }

  /** Asking for more than everything asks for everything; asking for nothing, or of no samples, gives zero. */
  lemma {:induction false} PercentileOutside(s: seq<u64>, p: real)
    ensures p > 1.0 ==> Percentile(s, p) == Percentile(s, 1.0)
    ensures p <= 0.0 || s == [] ==> Percentile(s, p) == 0.0
  {
  }

  lemma {:induction false} UpToTop(s: seq<u64>)
    ensures UpTo(s, 0xFFFF_FFFF_FFFF_FFFF) == |s|
  {
    if s != [] {
      UpToTop(s[..|s| - 1]);
    }
  }

  /** Where the count jumps there is a sample. */
  lemma {:induction false} CountedIsSample(s: seq<u64>, v: u64)
    requires UpTo(s, v - 1) < UpTo(s, v)
    ensures v in s
  {
    if s[|s| - 1] != v {
      CountedIsSample(s[..|s| - 1], v);
    }
  }

  lemma {:induction false} KthBelow(s: seq<u64>, k: nat, v: u64) returns (w: u64)
    requires 1 <= k <= UpTo(s, v)
    ensures IsKth(s, k, w)
    decreases v
  {
    NoneNegative(s);
    if UpTo(s, v - 1) < k {
      w := v;
    } else {
      w := KthBelow(s, k, v - 1);
    }
  }

  /** For every rank there is a k-th smallest sample, and it is one of the samples. */
  lemma {:induction false} KthExists(s: seq<u64>, k: nat) returns (w: u64)
    requires 1 <= k <= |s|
    ensures IsKth(s, k, w) && w in s
  {
    UpToTop(s);
    w := KthBelow(s, k, 0xFFFF_FFFF_FFFF_FFFF);
    CountedIsSample(s, w);
  }

  lemma {:induction false} NoneNegative(s: seq<u64>)
    ensures UpTo(s, -1) == 0
  {
    if s != [] {
      NoneNegative(s[..|s| - 1]);
    }
  }

  lemma {:induction false} MidpointGrows(a: nat, b: nat)
    requires a <= b
    ensures Midpoint(a) <= Midpoint(b)
    decreases b
  {
    if a < b {
      MidpointGrows(a, b - 1);
    }
  }

  lemma {:induction false} ReachingGrows(s: seq<u64>, j: nat, k: nat, b: nat)
    requires j <= k <= |s| && b < BUCKETS
    ensures Reaching(s, j, b) <= Reaching(s, k, b)
    decreases BUCKETS - b
  {
    if b < BUCKETS - 1 {
      ReachingGrows(s, j, k, b + 1);
    }
  }

  /** Percentiles grow with p. */
  lemma {:induction false} PercentileMonotone(s: seq<u64>, p: real, q: real)
    requires p <= q
    ensures Percentile(s, p) <= Percentile(s, q)
  {
    hide Scaled;
    hide Rank;
    if s != [] && q > 0.0 {
      RankBound(|s|, q);
      var j := Reaching(s, Rank(|s|, q), 0);
      if p > 0.0 {
        RankBound(|s|, p);
        RankGrows(|s|, p, q);
        ReachingGrows(s, Rank(|s|, p), Rank(|s|, q), 0);
        MidpointGrows(Reaching(s, Rank(|s|, p), 0), j);
      } else {
        MidpointGrows(0, j);
      }
    }
  }

  // ---- the histogram ----

  class LatencyHistogram {
    const buckets: array<nat>
    var total: nat
    ghost var samples: seq<u64>

    ghost predicate Valid()
      reads this, buckets
    {
      && buckets.Length == BUCKETS && total == |samples|
      && forall b :: 0 <= b < BUCKETS ==> buckets[b] == InBucket(samples, b)
    }

    constructor ()
      ensures Valid() && samples == [] && fresh(buckets)
    {
      buckets := new nat[BUCKETS](_ => 0);
      total, samples := 0, [];
    }

    method Record(us: u64)
      requires Valid()
      modifies this, buckets
      ensures Valid() && samples == old(samples) + [us]
    {
      var b := BucketFor(us);
      assert (samples + [us])[..|samples|] == samples;
      buckets[b] := buckets[b] + 1;
      total := total + 1;
      samples := samples + [us];
    }

    /** The walk over the buckets; it ends inside them because all samples are counted there. */
    method GetPercentile(p: real) returns (r: real)
      requires Valid()
      ensures r == Percentile(samples, p)
    {
      ghost var s := samples;
      assert total == |s|;
      hide *;
      PercentileIs(s, p);
      if p <= 0.0 || total == 0 {
        return 0.0;
      }
      var target := Rank(total, p);
      var i := Walk(target);
      r := Midpoint(i);
    }

    /** Adds up buckets until the rank is reached. */
    method Walk(target: nat) returns (i: nat)
      requires Valid() && target <= |samples|
      ensures i == Reaching(samples, target, 0)
    {
      AllCounted(samples);
      hide InBucket;
      var cumulative := buckets[0];
      i := 0;
      while cumulative < target
        invariant i < BUCKETS && cumulative == Cumulative(samples, i)
        invariant Reaching(samples, target, 0) == Reaching(samples, target, i)
        decreases BUCKETS - i
      {
        CumulativeGrows(samples, i, BUCKETS - 1);
        i := i + 1;
        cumulative := cumulative + buckets[i];
      }
    }
  }
}
