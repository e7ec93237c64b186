/** Ungzipped bodies inside a gzipped ESI response: wrapped in stored blocks, and what they inflate to. */
module EsiGzip {
  import opened Wrappers
  import opened Seqs

  const BLOCK := 65535

  function Le16(n: nat): string
    requires n <= BLOCK
  {
    [(n % 256) as char, (n / 256) as char]
  }

  function FromLe16(lo: char, hi: char): nat { lo as nat + 256 * (hi as nat) }

  lemma Le16Reads(n: nat)
    requires n <= BLOCK
    ensures FromLe16(Le16(n)[0], Le16(n)[1]) == n
  {
  }

  /** The five bytes ahead of a stored block: its header, its length, and the complement of that. */
  function Head(last: bool, n: nat): string
    requires n <= BLOCK
  {
    [(if last then 1 else 0) as char] + Le16(n) + Le16(BLOCK - n)
  }

  /** Inflating a stream of stored blocks, section 3.2.4 of RFC 1951: the data of the blocks up to the one
      marked last, and what follows it. None if a block is of another type or damaged. */
  function Inflate(s: string): Option<(string, string)> {
    if |s| < 5 || s[0] as nat / 2 % 4 != 0 then None
    else
      var n := FromLe16(s[1], s[2]);
      if FromLe16(s[3], s[4]) + n != BLOCK || |s| < 5 + n then None
      else if s[0] as nat % 2 == 1 then Some((s[5..5 + n], s[5 + n..]))
      else
        match Inflate(s[5 + n..])
        case None => None
        case Some((body, rest)) => Some((s[5..5 + n] + body, rest))
  }

  /** What is written for one piece of a body. */
  function Pretended(p: string): string {
    if p == [] then []
    else if |p| >= BLOCK then Head(false, BLOCK) + p[..BLOCK] + Pretended(p[BLOCK..])
    else Head(false, |p|) + p
  }

  /** How much of a piece goes into its first block. */
  function First(p: string): (n: nat)
    ensures n <= |p| && n <= BLOCK && (p != [] ==> n > 0)
  {
    if |p| >= BLOCK then BLOCK else |p|
  }

  lemma PretendedOn(p: string)
    requires p != []
    ensures var n := First(p); Pretended(p) == Head(false, n) + p[..n] + Pretended(p[n..])
  {
    hide Head;
    if |p| < BLOCK {
      assert p[..|p|] == p && p[|p|..] == [];
      assert Pretended(p[|p|..]) == [];
    }
  }

  function PretendedAll(store: seq<string>): string {
    if store == [] then [] else PretendedAll(store[..|store| - 1]) + Pretended(store[|store| - 1])
  }

  /** One block that is not the last. */
  lemma BlockInflates(d: string, s: string)
    requires |d| <= BLOCK
    ensures Inflate(Head(false, |d|) + d + s)
      == match Inflate(s) case None => None case Some((body, rest)) => Some((d + body, rest))
  {
    var h, n := Head(false, |d|), |d|;
    var all := h + d + s;
    Le16Reads(n);
    Le16Reads(BLOCK - n);
    assert all[..5] == h && all[0] == 0 as char && all[1] == Le16(n)[0] && all[2] == Le16(n)[1];
    assert all[3] == Le16(BLOCK - n)[0] && all[4] == Le16(BLOCK - n)[1];
    assert all[5..5 + n] == d && all[5 + n..] == s;
  }

  /** A piece in front of a stream puts its bytes in front of what the stream inflates to. */
  lemma {:induction false} PieceInflates(p: string, s: string)
    ensures Inflate(Pretended(p) + s)
      == match Inflate(s) case None => None case Some((body, rest)) => Some((p + body, rest))
    decreases |p|
  {
    if p == [] {
      assert Pretended(p) + s == s;
      assert Inflate(s).Some? ==> p + Inflate(s).value.0 == Inflate(s).value.0;
    } else {
      PretendedOn(p);
      var d, q := p[..First(p)], p[First(p)..];
      hide Pretended, Head, First;
      assert p == d + q;
      PieceInflates(q, s);
      BlockInflates(d, Pretended(q) + s);
      hide Inflate;
      assert Pretended(p) + s == Head(false, |d|) + d + (Pretended(q) + s);
      if Inflate(s).Some? { Assoc(d, q, Inflate(s).value.0); }
    }
  }

  lemma {:induction false} StoreInflates(store: seq<string>, s: string)
    ensures Inflate(PretendedAll(store) + s)
      == match Inflate(s) case None => None case Some((body, rest)) => Some((Flat(store) + body, rest))
  {
    hide Inflate, Pretended;
    if store == [] {
      assert PretendedAll(store) + s == s;
      assert Inflate(s).Some? ==> Flat(store) + Inflate(s).value.0 == Inflate(s).value.0;
    } else {
      var front, last := store[..|store| - 1], store[|store| - 1];
      PieceInflates(last, s);
      StoreInflates(front, Pretended(last) + s);
      Assoc(PretendedAll(front), Pretended(last), s);
      assert front + [last] == store;
      FlatSnoc(front, last);
      hide Flat, PretendedAll;
      if Inflate(s).Some? { Assoc(Flat(front), last, Inflate(s).value.0); }
    }
  }

  /** However a body is cut into segments, the blocks written for it and the empty last block inflate to
      exactly that body, and inflating stops behind them. */
  lemma BodyInflates(store: seq<string>, rest: string)
    ensures Inflate(PretendedAll(store) + Head(true, 0) + rest) == Some((Flat(store), rest))
  {
    var end := Head(true, 0) + rest;
    Le16Reads(0);
    Le16Reads(BLOCK);
    assert end[0] == 1 as char && end[1] == Le16(0)[0] && end[2] == Le16(0)[1];
    assert end[3] == Le16(BLOCK)[0] && end[4] == Le16(BLOCK)[1];
    assert end[5..5] == [] && end[5..] == rest;
    StoreInflates(store, end);
    assert PretendedAll(store) + Head(true, 0) + rest == PretendedAll(store) + end;
    assert Flat(store) + [] == Flat(store);
  }

  /** The worker's side of a gzipped response: what is written and how many bytes it stands for. */
  class Worker {
    var wire: string
    var l_crc: nat

    constructor ()
      ensures wire == [] && l_crc == 0
    {
      wire, l_crc := [], 0;
    }

    /** ved_pretend_gzip. */
    method PretendGzip(p0: string)
      modifies this
      ensures wire == old(wire) + Pretended(p0) && l_crc == old(l_crc) + |p0|
    {
      var buf1 := [0 as char] + Le16(65535) + Le16(0);
      var p := p0;
      while |p| > 0
        invariant wire + Pretended(p) == old(wire) + Pretended(p0)
        invariant |p| <= |p0| && l_crc + |p| == old(l_crc) + |p0|
        decreases |p|
      {
        ghost var was := wire;
        var lx: nat := 65535;
        if |p| >= 65535 {
          wire := wire + buf1;
        } else {
          lx := |p|;
          wire := wire + ([0 as char] + Le16(lx) + Le16(65535 - lx));
        }
        wire := wire + p[..lx];
        l_crc := l_crc + lx;
        Written(was, p, lx, wire);
        p := p[lx..];
      }
    }

    lemma Written(was: string, p: string, lx: nat, now: string)
      requires p != [] && lx == First(p)
      requires now == was + Head(false, lx) + p[..lx]
      ensures now + Pretended(p[lx..]) == was + Pretended(p)
    {
      PretendedOn(p);
      hide Pretended, Head, First;
      var h, d, q := Head(false, lx), p[..lx], Pretended(p[lx..]);
      Assoc(was, h, d);
      Assoc(was, h + d, q);
    }

    /** ESI_DeliverChild of a body that is not gzipped. */
    method DeliverChild(store: seq<string>)
      modifies this
      ensures wire == old(wire) + PretendedAll(store) && l_crc == old(l_crc) + |Flat(store)|
    {
      var i := 0;
      while i < |store|
        invariant i <= |store|
        invariant wire == old(wire) + PretendedAll(store[..i]) && l_crc == old(l_crc) + |Flat(store[..i])|
      {
        assert store[..i + 1][..i] == store[..i];
        FlatFront(store, i);
        PretendGzip(store[i]);
        i := i + 1;
      }
      assert store[..i] == store;
    }

    /** The end of the response, as far as the length: the empty last block, and the length modulo 2^32 behind
        the four bytes of the checksum. */
    method Tail(crc: string) returns (length: string)
      requires |crc| == 4
      modifies this`wire
      ensures wire == old(wire) + Head(true, 0) + crc + length
      ensures |length| == 4
      ensures FromLe16(length[0], length[1]) + 0x1_0000 * FromLe16(length[2], length[3]) == l_crc % 0x1_0000_0000
    {
      var n := l_crc % 0x1_0000_0000;
      length := Le16(n % 0x1_0000) + Le16(n / 0x1_0000);
      Le16Reads(n % 0x1_0000);
      Le16Reads(n / 0x1_0000);
      wire := wire + ([1 as char] + Le16(0) + Le16(65535)) + crc + length;
    }
  }

  /** A body wrapped and closed inflates to itself; the checksum and the length follow. */
  method Wrap(store: seq<string>, crc: string) returns (w: Worker, length: string)
    requires |crc| == 4
    ensures Inflate(w.wire) == Some((Flat(store), crc + length))
    ensures |length| == 4
    ensures FromLe16(length[0], length[1]) + 0x1_0000 * FromLe16(length[2], length[3])
      == |Flat(store)| % 0x1_0000_0000
  {
    hide Inflate, PretendedAll, Head, Flat, FromLe16;
    w := new Worker();
    w.DeliverChild(store);
    assert [] + PretendedAll(store) == PretendedAll(store);
    length := w.Tail(crc);
    assert w.wire == PretendedAll(store) + Head(true, 0) + crc + length;
    BodyInflates(store, crc + length);
    Assoc(PretendedAll(store) + Head(true, 0), crc, length);
  }
}
