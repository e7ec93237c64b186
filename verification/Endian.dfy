/** Big-endian numbers in byte strings, and reading a string from the front. */
module Endian {
  const SSIZE_MAX: nat := 0x7fff_ffff_ffff_ffff

  function Pow256(k: nat): nat {
    if k == 0 then 1 else 256 * Pow256(k - 1)
  }

  function BigEndian(l: nat, k: nat): (s: string)
    ensures |s| == k
  {
    if k == 0 then [] else BigEndian(l / 256, k - 1) + [(l % 256) as char]
  }

  function Number(s: string): nat {
    if s == [] then 0 else 256 * Number(s[..|s| - 1]) + s[|s| - 1] as nat
  }

  lemma {:induction false} NumberOfBigEndian(l: nat, k: nat)
    requires l < Pow256(k)
    ensures Number(BigEndian(l, k)) == l
  {
    if k > 0 {
      NumberOfBigEndian(l / 256, k - 1);
      var s := BigEndian(l, k);
      assert s[..k - 1] == BigEndian(l / 256, k - 1);
    }
  }

  lemma Powers()
    ensures Pow256(1) == 256 && Pow256(2) == 65536 && Pow256(4) == 0x1_0000_0000
    ensures Pow256(8) == 0x1_0000_0000_0000_0000
  {
    assert Pow256(0) == 1 && Pow256(1) == 256 && Pow256(2) == 65536 && Pow256(3) == 0x100_0000;
    assert Pow256(4) == 0x1_0000_0000 && Pow256(5) == 0x100_0000_0000 && Pow256(6) == 0x1_0000_0000_0000;
    assert Pow256(7) == 0x100_0000_0000_0000;
  }

  /** A string that is known to go on with `a` and then `b`. */
  lemma Front(s: string, p: nat, a: string, b: string)
    requires p <= |s| && s[p..] == a + b
    ensures p + |a| <= |s| && s[p..p + |a|] == a && s[p + |a|..] == b
    ensures a != [] ==> s[p] == a[0]
  {
    assert s[p..p + |a|] == s[p..][..|a|];
    assert s[p + |a|..] == s[p..][|a|..];
    if a != [] { assert s[p] == s[p..][0]; }
  }
}
