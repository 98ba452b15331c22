/** Table file names: "%06llu" in fixed surroundings. */
module Paths {

  function Decimal(n: nat): (s: string)
    ensures s != []
  {
    var digit := ['0' + (n % 10) as char];
    if n < 10 then digit else Decimal(n / 10) + digit
  }

  function Padded(s: string): string {
    if |s| < 6 then seq(6 - |s|, _ => '0') + s else s
  }

  /** A memtable flush writes here. */
  function FlushPath(sequence: nat): string {
    "l0/sst_l0_" + Padded(Decimal(sequence)) + ".sst"
  }

  /** A compaction into `dir` writes here. */
  function OutputPath(dir: string, level: nat, sequence: nat): string {
    dir + "/sst_" + Padded(Decimal(level)) + "_" + Padded(Decimal(sequence)) + ".sst"
  }

  function NumberOf(s: string): nat {
    if s == [] then 0
    else 10 * NumberOf(s[..|s| - 1]) + (if s[|s| - 1] < '0' then 0 else s[|s| - 1] as int - '0' as int)
  }

  lemma {:induction false} NumberOfDecimal(n: nat)
    ensures NumberOf(Decimal(n)) == n
  {
    if n >= 10 {
      NumberOfDecimal(n / 10);
    } else {
      assert Decimal(n)[..0] == [];
    }
  }

  lemma {:induction false} LeadingZeros(k: nat, s: string)
    ensures NumberOf(seq(k, _ => '0') + s) == NumberOf(s)
  {
    var zeros := seq(k, _ => '0');
    if s != [] {
      LeadingZeros(k, s[..|s| - 1]);
      assert (zeros + s)[..|zeros + s| - 1] == zeros + s[..|s| - 1];
    } else if k > 0 {
      LeadingZeros(k - 1, s);
      assert (zeros + s)[..k - 1] == seq(k - 1, _ => '0') + s;
    }
  }

  lemma {:induction false} PaddedInjective(m: nat, n: nat)
    requires Padded(Decimal(m)) == Padded(Decimal(n))
    ensures m == n
  {
    NumberOfDecimal(m);
    NumberOfDecimal(n);
    var a, b := Decimal(m), Decimal(n);
    if |a| < 6 {
      LeadingZeros(6 - |a|, a);
    }
    if |b| < 6 {
      LeadingZeros(6 - |b|, b);
    }
  }

  lemma {:induction false} Middle(p: string, a: string, q: string)
    ensures (p + a + q)[|p|..|p + a + q| - |q|] == a
  {
  }

  /** Different sequence numbers get different names. */
  lemma {:induction false} FlushPathInjective(m: nat, n: nat)
    ensures FlushPath(m) == FlushPath(n) <==> m == n
  {
    Middle("l0/sst_l0_", Padded(Decimal(m)), ".sst");
    Middle("l0/sst_l0_", Padded(Decimal(n)), ".sst");
    if FlushPath(m) == FlushPath(n) {
      PaddedInjective(m, n);
    }
  }

  lemma {:induction false} OutputPathInjective(dir: string, level: nat, m: nat, n: nat)
    ensures OutputPath(dir, level, m) == OutputPath(dir, level, n) <==> m == n
  {
    var front := dir + "/sst_" + Padded(Decimal(level)) + "_";
    Middle(front, Padded(Decimal(m)), ".sst");
    Middle(front, Padded(Decimal(n)), ".sst");
    if OutputPath(dir, level, m) == OutputPath(dir, level, n) {
      PaddedInjective(m, n);
    }
  }

  /** Flushed and compacted files never share a name. */
  lemma {:induction false} FlushAndOutputDiffer(m: nat, level: nat, n: nat)
    ensures FlushPath(m) != OutputPath("l1", level, n)
  {
    assert FlushPath(m)[1] == '0' && OutputPath("l1", level, n)[1] == '1';
  }
}
