/** The bump-pointer arena: every allocation gets bytes of its own inside a block. */
module Arenas {
  import opened Bytes

  const BLOCK_SIZE: nat := 4096
  const WORD_SIZE: nat := 8

  /** A returned pointer: which block, which byte, how many bytes were asked for. */
  datatype Region = Region(block: nat, offset: nat, size: nat)

  predicate Apart(a: Region, b: Region) {
    a.block != b.block || a.offset + a.size <= b.offset || b.offset + b.size <= a.offset
  }

  predicate Inside(a: Region, blocks: seq<nat>) {
    a.size == 0 || (a.block < |blocks| && a.offset + a.size <= blocks[a.block])
  }

  function Total(blocks: seq<nat>): nat {
    if blocks == [] then 0 else Total(blocks[..|blocks| - 1]) + blocks[|blocks| - 1]
  }

  /** Every block counts with its size. */
  lemma {:induction false} TotalAdds(a: seq<nat>, x: nat, b: seq<nat>)
    ensures Total([]) == 0 && Total([x]) == x && Total(a + [x] + b) == Total(a) + x + Total(b)
  {
    assert [x][..0] == [];
    if b == [] {
      assert a + [x] + [] == a + [x] && (a + [x])[..|a|] == a;
    } else {
      var n := |b| - 1;
      TotalAdds(a, x, b[..n]);
      assert (a + [x] + b)[..|a| + 1 + n] == a + [x] + b[..n];
    }
  }

  /** `(n + a - 1) & ~(a - 1)` in 64 bits. */
  function RoundUp(n: u64): u64 {
    (n + 7) % TWO_64 / WORD_SIZE * WORD_SIZE
  }

  /** Rounding up gives enough bytes exactly when the addition does not wrap. */
  lemma {:induction false} RoundUpEnough(n: u64)
    ensures RoundUp(n) >= n <==> n <= TWO_64 - 8
    ensures RoundUp(n) % WORD_SIZE == 0 && (n <= TWO_64 - 8 ==> RoundUp(n) < n + WORD_SIZE)
  {
  }

  class Arena {
    /** Sizes of the blocks obtained so far. */
    var blocks: seq<nat>
    /** `ptr_` as an offset into the last block. */
    var ptr: nat
    var remaining: nat
    var used: nat
    ghost var given: seq<Region>

    ghost predicate Valid()
      reads this
    {
      && used == Total(blocks)
      && (blocks == [] ==> ptr == 0 && remaining == 0)
      && (blocks != [] ==> ptr + remaining == blocks[|blocks| - 1])
      && (forall i :: 0 <= i < |given| ==> Inside(given[i], blocks))
      && (forall i :: 0 <= i < |given| && given[i].block + 1 >= |blocks| ==>
            given[i].offset + given[i].size <= ptr || given[i].size == 0)
      && (forall i, j :: 0 <= i < j < |given| && given[i].size > 0 && given[j].size > 0 ==> Apart(given[i], given[j]))
    }

    /** All offsets handed out, and the next one, are multiples of the pointer size. */
    ghost predicate Aligned()
      reads this
    {
      ptr % WORD_SIZE == 0 && forall i :: 0 <= i < |given| ==> given[i].offset % WORD_SIZE == 0
    }

    constructor ()
      ensures Valid() && Aligned() && given == [] && used == 0
    {
      blocks, ptr, remaining, used, given := [], 0, 0, 0, [];
    }

    /** The region is new, inside a block and disjoint from all before it; memory grows by whole blocks. */
    method Allocate(n: nat) returns (r: Region)
      requires Valid()
      modifies this
      ensures Valid() && given == old(given) + [r] && r.size == n && Inside(r, blocks)
      ensures n > 0 ==> forall i :: 0 <= i < |old(given)| && old(given)[i].size > 0 ==> Apart(old(given)[i], r)
      ensures used == old(used) + if n <= old(remaining) then 0 else if n > BLOCK_SIZE then n else BLOCK_SIZE
      ensures old(blocks) <= blocks && r.offset == if n <= old(remaining) then old(ptr) else 0
      ensures ptr == r.offset + n
    {
      if n <= remaining {
        r := Region(if |blocks| > 0 then |blocks| - 1 else 0, ptr, n);
        ptr := ptr + n;
        remaining := remaining - n;
        given := given + [r];
        return;
      }
      r := SlowAlloc(n);
    }

    method SlowAlloc(n: nat) returns (r: Region)
      requires Valid() && n > remaining
      modifies this
      ensures Valid() && given == old(given) + [r] && r == Region(|old(blocks)|, 0, n) && Inside(r, blocks)
      ensures forall i :: 0 <= i < |old(given)| && old(given)[i].size > 0 ==> Apart(old(given)[i], r)
      ensures blocks == old(blocks) + [if n > BLOCK_SIZE then n else BLOCK_SIZE]
      ensures used == old(used) + if n > BLOCK_SIZE then n else BLOCK_SIZE
      ensures ptr == n
    {
      var size := if n > BLOCK_SIZE then n else BLOCK_SIZE;
      blocks := blocks + [size];
      assert blocks[..|blocks| - 1] == old(blocks);
      used := used + size;
      ptr := n;
      remaining := size - n;
      r := Region(|blocks| - 1, 0, n);
      given := given + [r];
    }

    /** Alignment is kept by aligned allocations; the region is large enough unless the rounding wrapped. */
    method AllocateAligned(n: u64) returns (r: Region)
      requires Valid()
      modifies this
      ensures Valid() && given == old(given) + [r] && r.size == RoundUp(n) && Inside(r, blocks)
      ensures r.size > 0 ==> forall i :: 0 <= i < |old(given)| && old(given)[i].size > 0 ==> Apart(old(given)[i], r)
      ensures n <= r.size <==> n <= TWO_64 - 8
      ensures old(Aligned()) ==> Aligned() && r.offset % WORD_SIZE == 0
    {
      RoundUpEnough(n);
      r := Allocate(RoundUp(n));
    }
  }
}
