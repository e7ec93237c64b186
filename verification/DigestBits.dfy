/** Object digests, their bits, and the table that finds the first differing bit of two bytes. */
module DigestBits {

  const DIGEST_LEN := 32
  const DIGEST_BITS := 256

  type Digest = d: seq<bv8> | |d| == DIGEST_LEN witness seq(DIGEST_LEN, _ => 0)

  /** The mask a crit-bit node keeps for bit `r` of a byte, counted from the most significant bit. */
  function Mask(r: nat): bv8
    requires r < 8
  {
    if r == 0 then 0x80 else if r == 1 then 0x40 else if r == 2 then 0x20 else if r == 3 then 0x10
    else if r == 4 then 0x08 else if r == 5 then 0x04 else if r == 6 then 0x02 else 0x01
  }

  predicate ByteBit(b: bv8, r: nat)
    requires r < 8
  {
    b & Mask(r) != 0
  }

  predicate Bit(d: Digest, i: nat)
    requires i < DIGEST_BITS
  {
    ByteBit(d[i / 8], i % 8)
  }

  /** `d` and `e` carry the same bits before position `c`. */
  ghost predicate Agree(d: Digest, e: Digest, c: nat)
    requires c <= DIGEST_BITS
  {
    forall i: nat :: i < c ==> Bit(d, i) == Bit(e, i)
  }

  /** `c` is the critical bit: the first position where the two digests differ. */
  ghost predicate IsCritBit(d: Digest, e: Digest, c: nat) {
    c < DIGEST_BITS && Agree(d, e, c) && Bit(d, c) != Bit(e, c)
  }

  // ---- the leading-zero table ----

  function Pow2(n: nat): nat {
    if n == 0 then 1 else 2 * Pow2(n - 1)
  }

  /** The number of leading zero bits of a byte value. */
  function LeadingZeros(z: nat): nat
    requires z < 256
  {
    if z >= 128 then 0
    else if z >= 64 then 1
    else if z >= 32 then 2
    else if z >= 16 then 3
    else if z >= 8 then 4
    else if z >= 4 then 5
    else if z >= 2 then 6
    else if z >= 1 then 7
    else 8
  }

  /** Fills the table as hcb_build_bittbl does: entries 128 and up keep their static zero. */
  method BuildBitTable() returns (tbl: array<nat>)
    ensures fresh(tbl) && tbl.Length == 256
    ensures forall z :: 0 <= z < 256 ==> tbl[z] == LeadingZeros(z)
  {
    tbl := new nat[256](_ => 0);
    var y := 0;
    var x := 0;
    while x < 8
      invariant 0 <= x <= 8
      invariant y == if x == 0 then 0 else Pow2(x - 1)
      invariant y <= 128
      invariant forall z :: 0 <= z < y ==> tbl[z] == LeadingZeros(z)
      invariant forall z :: y <= z < 256 ==> tbl[z] == 0
    {
      assert Pow2(x) <= 128 by { PowersBelow8(x); }
      while y < Pow2(x)
        invariant 0 <= y <= Pow2(x) <= 128
        invariant (if x == 0 then 0 else Pow2(x - 1)) <= y
        invariant forall z :: 0 <= z < y ==> tbl[z] == LeadingZeros(z)
        invariant forall z :: y <= z < 256 ==> tbl[z] == 0
      {
        PowersBelow8(x);
        tbl[y] := 8 - x;
        y := y + 1;
      }
      x := x + 1;
    }
    PowersBelow8(7);
  }

  lemma PowersBelow8(x: nat)
    requires x < 8
    ensures Pow2(x) == [1, 2, 4, 8, 16, 32, 64, 128][x]
    ensures x > 0 ==> 2 * Pow2(x - 1) == Pow2(x)
  {
    assert Pow2(0) == 1 && Pow2(1) == 2 && Pow2(2) == 4;
    assert Pow2(3) == 8 && Pow2(4) == 16 && Pow2(5) == 32;
    assert Pow2(6) == 64 && Pow2(7) == 128;
  }

  /** The number of leading zeros of a nonzero byte is the position of its first set bit. */
  lemma FirstSetBit(z: bv8) returns (r: nat)
    requires z != 0
    ensures r == LeadingZeros(z as nat)
    ensures r < 8 && ByteBit(z, r) && forall i: nat :: i < r ==> !ByteBit(z, i)
  {
    XorBound(z);
    r := LeadingZeros(z as nat);
    forall i: nat | i < r ensures !ByteBit(z, i) {
      assert i in {0, 1, 2, 3, 4, 5, 6};
    }
  }

  lemma XorBit(x: bv8, y: bv8, r: nat)
    requires r < 8
    ensures ByteBit(x ^ y, r) <==> ByteBit(x, r) != ByteBit(y, r)
  {
    assert r in {0, 1, 2, 3, 4, 5, 6, 7};
  }

  /** Indexing the table with the exclusive or of two bytes gives their first differing bit. */
  lemma LeadingZerosOfXor(x: bv8, y: bv8) returns (r: nat)
    requires x != y
    ensures r == LeadingZeros((x ^ y) as nat)
    ensures r < 8 && ByteBit(x, r) != ByteBit(y, r)
    ensures forall i: nat :: i < r ==> ByteBit(x, i) == ByteBit(y, i)
  {
    assert x ^ y != 0;
    r := FirstSetBit(x ^ y);
    XorBit(x, y, r);
    forall i: nat | i < r ensures ByteBit(x, i) == ByteBit(y, i) { XorBit(x, y, i); }
  }

  lemma MaskIsShift(r: nat)
    requires r < 8
    ensures 0x80 as bv8 >> r == Mask(r)
  {
    assert r in {0, 1, 2, 3, 4, 5, 6, 7};
  }

  lemma XorBound(z: bv8)
    ensures (z as nat >= 128 <==> z >= 0x80) && (z as nat >= 64 <==> z >= 0x40)
    ensures (z as nat >= 32 <==> z >= 0x20) && (z as nat >= 16 <==> z >= 0x10)
    ensures (z as nat >= 8 <==> z >= 0x08) && (z as nat >= 4 <==> z >= 0x04)
    ensures (z as nat >= 2 <==> z >= 0x02) && (z as nat >= 1 <==> z >= 0x01)
  {
  }

  /** The critical bit of two different digests, as a byte index and a bit inside that byte. */
  method CritBit(tbl: array<nat>, d: Digest, e: Digest) returns (ptr: nat, bitmask: bv8, critbit: nat)
    requires tbl.Length == 256 && forall z :: 0 <= z < 256 ==> tbl[z] == LeadingZeros(z)
    requires d != e
    ensures IsCritBit(d, e, critbit)
    ensures ptr == critbit / 8 && bitmask == Mask(critbit % 8)
  {
    var u := 0;
    while u < DIGEST_LEN && d[u] == e[u]
      invariant 0 <= u <= DIGEST_LEN
      invariant forall j :: 0 <= j < u ==> d[j] == e[j]
    {
      u := u + 1;
    }
    assert u == DIGEST_LEN ==> d == e;
    ghost var lz := LeadingZerosOfXor(d[u], e[u]);
    var r := tbl[(d[u] ^ e[u]) as int];
    assert r == lz;
    FirstDifference(d, e, u, r);
    ptr := u;
    MaskIsShift(r);
    bitmask := 0x80 >> r;
    critbit := u * 8 + r;
  }

  lemma FirstDifference(d: Digest, e: Digest, u: nat, r: nat)
    requires u < DIGEST_LEN && r < 8
    requires forall j :: 0 <= j < u ==> d[j] == e[j]
    requires forall k: nat :: k < r ==> ByteBit(d[u], k) == ByteBit(e[u], k)
    requires ByteBit(d[u], r) != ByteBit(e[u], r)
    ensures IsCritBit(d, e, u * 8 + r)
  {
    var c := u * 8 + r;
    assert c / 8 == u && c % 8 == r;
    assert Bit(d, c) != Bit(e, c);
    forall i: nat | i < c ensures Bit(d, i) == Bit(e, i) {
      SameByteBits(d, e, u, r, i);
    }
  }

  lemma SameByteBits(d: Digest, e: Digest, u: nat, r: nat, i: nat)
    requires u < DIGEST_LEN && r < 8 && i < u * 8 + r
    requires forall j :: 0 <= j < u ==> d[j] == e[j]
    requires forall k: nat :: k < r ==> ByteBit(d[u], k) == ByteBit(e[u], k)
    ensures Bit(d, i) == Bit(e, i)
  {
    if i / 8 == u { assert i % 8 < r; } else { assert i / 8 < u; }
  }

  /** Different digests have a critical bit, so digests that agree on all 256 bits are equal. */
  lemma DifferentDigestsHaveCritBit(d: Digest, e: Digest) returns (c: nat)
    requires d != e
    ensures IsCritBit(d, e, c)
  {
    var u := 0;
    while u < DIGEST_LEN && d[u] == e[u]
      invariant 0 <= u <= DIGEST_LEN
      invariant forall j :: 0 <= j < u ==> d[j] == e[j]
    {
      u := u + 1;
    }
    assert u == DIGEST_LEN ==> d == e;
    var r := LeadingZerosOfXor(d[u], e[u]);
    FirstDifference(d, e, u, r);
    c := u * 8 + r;
  }
}
