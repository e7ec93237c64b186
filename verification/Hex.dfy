/** Hexadecimal numbers as the chunked coding writes and reads them. */
module Hex {
  import opened Vct
  import opened Wrappers
  import opened Endian

  function Digit(d: nat): char
    requires d < 16
  {
    if d < 10 then '0' + d as char else 'a' + (d - 10) as char
  }

  function Value(c: char): nat
    requires IsHex(c)
  {
    if c <= '9' then (c - '0') as nat else if c <= 'F' then (c - 'A') as nat + 10 else (c - 'a') as nat + 10
  }

  predicate AllHex(s: string) { forall i :: 0 <= i < |s| ==> IsHex(s[i]) }

  /** The conversion %jx. */
  function Hex(n: nat): (s: string)
    ensures s != [] && AllHex(s) && (n > 0 ==> s[0] != '0')
  {
    if n < 16 then [Digit(n)] else Hex(n / 16) + [Digit(n % 16)]
  }

  function Number(s: string): nat
    requires AllHex(s)
  {
    if s == [] then 0 else 16 * Number(s[..|s| - 1]) + Value(s[|s| - 1])
  }

  lemma {:induction false} NumberOfHex(n: nat)
    ensures Number(Hex(n)) == n
  {
    var s := Hex(n);
    if n < 16 {
      assert |s[..|s| - 1]| == 0;
    } else {
      NumberOfHex(n / 16);
      assert s[..|s| - 1] == Hex(n / 16);
    }
  }

  function Pow16(k: nat): nat { if k == 0 then 1 else 16 * Pow16(k - 1) }

  lemma {:induction false} HexLength(n: nat, k: nat)
    requires 0 < k && n < Pow16(k)
    ensures |Hex(n)| <= k
  {
    if n >= 16 {
      assert Pow16(1) == 16;
      HexLength(n / 16, k - 1);
    }
  }

  lemma SizeDigits(n: nat)
    requires n <= SSIZE_MAX
    ensures |Hex(n)| <= 16
  {
    assert Pow16(4) == 0x1_0000;
    assert Pow16(8) == 0x1_0000_0000;
    assert Pow16(12) == 0x1_0000_0000_0000;
    assert Pow16(16) == 0x1_0000_0000_0000_0000;
    HexLength(n, 16);
  }

  /** fetch_number with radix 16 on a string whose characters after the first are hex digits: strtoumax
      skips white space, takes one sign, wraps negative numbers and stops at its largest value; results
      that do not fit a signed size are refused. */
  function FetchNumber(buf: string): (r: Option<nat>)
    requires buf != [] && AllHex(buf[1..])
    ensures r.Some? ==> r.value <= SSIZE_MAX
  {
    if IsHex(buf[0]) then
      assert forall i :: 0 < i < |buf| ==> buf[i] == buf[1..][i - 1];
      Small(Number(buf))
    else if buf[0] in "+\U{0b}\U{0c}" && |buf| > 1 then Small(Number(buf[1..]))
    else if buf[0] == '-' && |buf| > 1 then
      var v := Number(buf[1..]);
      if v == 0 then Some(0)
      else if SSIZE_MAX + 1 < v < 0x1_0000_0000_0000_0000 then Some(0x1_0000_0000_0000_0000 - v)
      else None
    else None
  }

  function Small(v: nat): Option<nat> { if v <= SSIZE_MAX then Some(v) else None }
}
