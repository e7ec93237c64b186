/** Writing a chunked body through the gathered-write buffer, and reading it back. */
module ChunkWriter {
  import opened Hex
  import opened Vct
  import opened Wrappers
  import opened Seqs
  import opened Endian
  import opened ChunkReader

  // ---- the format ----

  function ChunkHead(n: nat): string { "00" + Hex.Hex(n) + "\r\n" }

  /** A chunk as written; nothing for no data. */
  function Chunk(d: string): string {
    if d == [] then [] else ChunkHead(|d|) + d + "\r\n"
  }

  function Chunks(ds: seq<string>): string {
    if ds == [] then [] else Chunks(ds[..|ds| - 1]) + Chunk(ds[|ds| - 1])
  }

  const LAST: string := "0\r\n\r\n"

  // ---- the buffer ----

  /** The iov array of a worker. While chunking, slot `ciov` is kept for the head of the chunk, and the
      slot at `niov` for its end. `wire` is what was written to the socket. */
  class Wrw {
    const siov: nat
    var iov: array<string>
    var niov: nat
    var ciov: nat
    var liov: nat
    var cliov: nat
    var wire: string
    /** Since WRW_Chunked: everything put out before it, the chunks written and the data given. */
    ghost var head: string
    ghost var chunks: seq<string>
    ghost var body: string

    predicate Chunking() reads this { ciov < siov }

    ghost predicate Shape() reads this {
      && iov.Length == siov >= 3 && niov <= siov && ciov <= siov
      && (Chunking() ==> ciov < niov < siov)
    }

    /** What waits in the buffer ahead of the chunk, and in it. */
    ghost function Pre(): string
      requires Shape()
      reads this, iov
    {
      Flat(if Chunking() then iov[..ciov] else iov[..niov])
    }

    ghost function Data(): string
      requires Shape()
      reads this, iov
    {
      if Chunking() then Flat(iov[ciov + 1..niov]) else []
    }

    ghost predicate Valid() reads this, iov {
      && Shape()
      && liov == |Pre()| + |Data()| && (Chunking() ==> cliov == |Data()|)
    }

    /** While chunking: what went out is the head and whole chunks, none of them empty. */
    ghost predicate InStep() reads this, iov {
      && Valid() && Chunking()
      && wire + Pre() == head + Chunks(chunks) && (Pre() != [] ==> chunks == [])
      && (forall i :: 0 <= i < |chunks| ==> chunks[i] != [])
    }

    /** The chunks and the data waiting are all the data given. */
    ghost predicate Session() reads this, iov {
      InStep() && Flat(chunks) + Data() == body
    }

    /** WRW_Reserve. */
    constructor (siov: nat)
      requires siov >= 3
      ensures Valid() && fresh(iov) && !Chunking() && Pre() == [] && wire == [] && this.siov == siov
    {
      this.siov := siov;
      iov := new string[siov](_ => []);
      niov, ciov, liov, cliov, wire, head, chunks, body := 0, siov, 0, 0, [], [], [], [];
    }

    /** Completes the chunk, if there is one: its head goes into the slot kept for it and its end behind the
        data. */
    method Complete()
      requires Valid()
      modifies this`niov, this`liov, iov
      ensures niov <= siov && Flat(iov[..niov]) == old(Pre()) + Chunk(old(Data()))
    {
      hide Flat;
      ghost var v, c, n := iov[..], ciov, niov;
      if Chunking() && cliov > 0 {
        var cbuf := ChunkHead(cliov);
        iov[ciov] := cbuf;
        liov := liov + |cbuf|;
        iov[niov] := "\r\n";
        niov := niov + 1;
        liov := liov + 2;
        GatheredChunk(v, c, n, cliov);
        assert iov[..niov] == v[..c] + [ChunkHead(cliov)] + v[c + 1..n] + ["\r\n"];
      } else if Chunking() {
        iov[ciov] := [];
        GatheredPre(v, c, n);
        assert iov[..niov] == v[..c] + [[]] + v[c + 1..n];
      }
    }

    /** Puts a piece into the next free slot. */
    method Put(d: string)
      requires Valid() && niov < siov - (if Chunking() then 1 else 0)
      modifies this`niov, this`liov, this`cliov, iov
      ensures Valid() && Chunking() == old(Chunking()) && iov == old(iov) && niov == old(niov) + 1
      ensures Chunking() ==> Pre() == old(Pre()) && Data() == old(Data()) + d
      ensures !Chunking() ==> Pre() == old(Pre()) + d
    {
      hide Flat;
      ghost var v := iov[..];
      iov[niov] := d;
      liov := liov + |d|;
      niov := niov + 1;
      if ciov < siov {
        cliov := cliov + |d|;
        FlatSnoc(v[ciov + 1..niov - 1], d);
        assert iov[ciov + 1..niov] == v[ciov + 1..niov - 1] + [d] && iov[..ciov] == v[..ciov];
      } else {
        FlatSnoc(v[..niov - 1], d);
        assert iov[..niov] == v[..niov - 1] + [d];
      }
    }

    /** WRW_Flush, when all of it can be written. */
    method Flush()
      requires Valid()
      modifies this`niov, this`ciov, this`liov, this`cliov, this`wire, this`chunks, iov
      ensures Valid() && Chunking() == old(Chunking()) && iov == old(iov)
      ensures chunks == old(chunks) + if old(Data()) != [] then [old(Data())] else []
      ensures old(Session()) ==> Session()
      ensures wire == old(wire) + (old(Pre()) + Chunk(old(Data()))) && Pre() == [] && Data() == []
      ensures niov == if Chunking() then 1 else 0
    {
      hide Flat, Chunk, Chunks;
      ghost var pre, data, went := Pre(), Data(), wire;
      NoChunk();
      chunks := chunks + if data != [] then [data] else [];
      if liov > 0 {
        Complete();
        wire := wire + Flat(iov[..niov]);
      } else {
        assert Pre() + Chunk(Data()) == [];
      }
      liov, cliov, niov := 0, 0, 0;
      if ciov < siov {
        ciov := niov;
        niov := niov + 1;
        assert |iov[..ciov]| == 0 && |iov[ciov + 1..niov]| == 0;
      }
      FlushSession(went, pre, data, old(head), old(chunks), old(body));
    }

    /** WRW_Write. */
    method Write(d: string)
      requires Valid()
      modifies this`niov, this`ciov, this`liov, this`cliov, this`wire, this`chunks, this`body, iov
      ensures Valid() && Chunking() == old(Chunking()) && iov == old(iov)
      ensures !Chunking() ==> wire + Pre() == old(wire + Pre()) + d
      ensures body == old(body) + d
      ensures old(Session()) ==> Session()
    {
      hide Flat, Chunk, Chunks;
      body := body + d;
      if |d| == 0 {
        assert wire + Pre() + d == wire + Pre();
        assert Flat(chunks) + Data() + d == Flat(chunks) + Data();
        return;
      }
      WriteSome(d);
    }

    method WriteSome(d: string)
      requires Valid() && d != []
      modifies this`niov, this`ciov, this`liov, this`cliov, this`wire, this`chunks, iov
      ensures Valid() && Chunking() == old(Chunking()) && iov == old(iov)
      ensures !Chunking() ==> wire + Pre() == old(wire + Pre()) + d
      ensures old(InStep()) ==> InStep() && Flat(chunks) + Data() == old(Flat(chunks) + Data()) + d
    {
      hide Flat, Chunk, Chunks;
      NoChunk();
      ghost var pre, data, went := Pre(), Data(), wire;
      if niov >= siov - (if ciov < siov then 1 else 0) { Flush(); }
      FlushSession(went, pre, data, head, old(chunks), Flat(old(chunks)) + data);
      Put(d);
    }

    /** WRW_Chunked: a slot is set aside for the head of the first chunk. */
    method Chunked()
      requires Valid() && !Chunking()
      modifies this, iov
      ensures Session() && body == [] && chunks == [] && head == old(wire + Pre()) && iov == old(iov)
    {
      hide Flat, Chunk, Chunks;
      NoChunk();
      NoChunks();
      if niov + 3 >= siov {
        assert Pre() + [] == Pre();
        Flush();
      }
      ghost var v := iov[..];
      ciov := niov;
      niov := niov + 1;
      cliov := 0;
      head, chunks, body := wire + Flat(v[..ciov]), [], [];
      assert |iov[ciov + 1..niov]| == 0 && head + [] == head && wire + [] == wire;
    }

    /** WRW_EndChunk: the chunk is flushed, and the empty one that ends the body is put into the buffer. */
    method EndChunk()
      requires Session()
      modifies this, iov
      ensures Valid() && !Chunking() && iov == old(iov) && head == old(head) && body == old(body)
      ensures wire + Pre() == head + Chunks(chunks) + LAST && Flat(chunks) == body
      ensures forall i :: 0 <= i < |chunks| ==> chunks[i] != []
    {
      hide Flat, Chunk, Chunks;
      Flush();
      NoChunk();
      ciov := siov;
      niov := 0;
      cliov := 0;
      assert |iov[..0]| == 0 && wire + [] == wire && Flat(chunks) + [] == Flat(chunks);
      ghost var b, c := body, chunks;
      WriteSome(LAST);
      chunks := c;
    }

  }

  lemma NoChunks()
    ensures Chunks([]) == []
  {
  }

  lemma NoChunk()
    ensures Flat<char>([]) == [] && Chunk([]) == []
  {
  }

  /** A flush keeps what was put out and given in step. */
  lemma FlushSession(wire: string, pre: string, data: string, head: string, chunks: seq<string>, body: string)
    ensures var chunks' := chunks + if data != [] then [data] else [];
      (wire + pre == head + Chunks(chunks) && Flat(chunks) + data == body ==>
         wire + (pre + Chunk(data)) == head + Chunks(chunks') && Flat(chunks') + [] == body)
  {
    hide Flat, Chunk, Chunks;
    if data == [] {
      NoChunk();
      assert chunks + [] == chunks && pre + [] == pre && Flat(chunks) + [] == Flat(chunks);
    } else {
      FlatSnoc(chunks, data);
      ChunksSnoc(chunks, data);
      Assoc(wire, pre, Chunk(data));
      Assoc(head, Chunks(chunks), Chunk(data));
      assert (Flat(chunks) + data) + [] == Flat(chunks) + data;
    }
  }

  lemma ChunksSnoc(ds: seq<string>, d: string)
    ensures Chunks(ds + [d]) == Chunks(ds) + Chunk(d)
  {
    assert (ds + [d])[..|ds|] == ds;
  }

  /** The pieces of a chunk, gathered in order. */
  lemma GatheredChunk(v: seq<string>, c: nat, n: nat, len: nat)
    requires c < n <= |v|
    ensures Flat(v[..c] + [ChunkHead(len)] + v[c + 1..n] + ["\r\n"])
      == Flat(v[..c]) + (ChunkHead(len) + Flat(v[c + 1..n]) + "\r\n")
  {
    FlatSnoc(v[..c] + [ChunkHead(len)] + v[c + 1..n], "\r\n");
    FlatJoin(v[..c] + [ChunkHead(len)], v[c + 1..n]);
    FlatSnoc(v[..c], ChunkHead(len));
  }

  lemma GatheredPre(v: seq<string>, c: nat, n: nat)
    requires c < n <= |v|
    ensures Flat(v[..c] + [[]] + v[c + 1..n]) == Flat(v[..c]) + Flat(v[c + 1..n])
  {
    FlatJoin(v[..c] + [[]], v[c + 1..n]);
    FlatSnoc(v[..c], []);
  }

  // ---- reading back ----

  lemma {:induction false} DigitsAll(buf: string, h: string, t: string)
    requires 0 < |buf| && |buf| + |h| < BUFSIZE && AllHex(buf[1..]) && AllHex(h) && t != [] && !IsHex(t[0])
    requires |buf| == 1 && buf[0] == '0' && h != [] ==> h[0] != '0'
    ensures Digits(buf, h + t) == (buf + h, t)
    decreases |h|
  {
    if h == [] {
      assert h + t == t && buf + h == buf;
    } else {
      assert (h + t)[0] == h[0] && (h + t)[1..] == h[1..] + t;
      assert (buf + [h[0]])[1..] == buf[1..] + [h[0]];
      DigitsAll(buf + [h[0]], h[1..], t);
      assert buf + [h[0]] + h[1..] == buf + h;
    }
  }

  lemma {:induction false} LeadingZero(h: string)
    requires AllHex(h)
    ensures Hex.Number(['0'] + h) == Hex.Number(h)
  {
    var s := ['0'] + h;
    if h == [] {
      assert |s[..0]| == 0 && Hex.Number(s[..0]) == 0;
    } else {
      LeadingZero(h[..|h| - 1]);
      assert s[..|s| - 1] == ['0'] + h[..|h| - 1];
    }
  }

  /** The head of a chunk reads as its length. */
  lemma HeadReads(n: nat, rest: string)
    requires 0 < n <= SSIZE_MAX
    ensures Header(ChunkHead(n) + rest) == Some((n, rest))
  {
    var h := Hex.Hex(n);
    SizeDigits(n);
    LineReads(h, rest);
    NumberOfHex(n);
    LeadingZero(h);
    var s := "0" + (['0'] + (h + ("\r\n" + rest)));
    assert ChunkHead(n) + rest == s;
  }

  /** A line of hex digits behind a zero that may be doubled. */
  lemma LineReads(h: string, rest: string)
    requires AllHex(h) && h != [] && h[0] != '0' && |h| <= 16
    ensures var buf := ['0'] + h;
      AllHex(buf[1..]) && Header("0" + (['0'] + (h + ("\r\n" + rest))))
        == if FetchNumber(buf).None? then None else Some((FetchNumber(buf).value, rest))
  {
    var t := "\r\n" + rest;
    var b := ['0'] + (h + t);
    var s := "0" + b;
    var buf := ['0'] + h;
    assert SkipWhite(s) == s && s[1..] == b && b[1..] == h + t && buf[1..] == h;
    DigitsAll(['0'], h, t);
    assert Digits(['0'], b) == Digits(['0'], h + t);
    BlankReads(rest);
  }

  lemma BlankReads(rest: string)
    ensures SkipBlank("\r\n" + rest) == ['\n'] + rest && (['\n'] + rest)[1..] == rest
    ensures Tail("\r\n" + rest) == Some(rest)
  {
    var t := "\r\n" + rest;
    assert t[1..] == ['\n'] + rest && t[2..] == rest;
  }

  lemma LastReads(rest: string)
    ensures ReadChunked(LAST + rest) == Fetched(true, [], rest)
  {
    var t := "\r\n" + ("\r\n" + rest);
    var s := LAST + rest;
    assert s == ['0'] + t && s[1..] == t;
    assert SkipWhite(s) == s;
    DigitsAll(['0'], [], t);
    assert [] + t == t && ['0'] + [] == ['0'];
    BlankReads("\r\n" + rest);
    BlankReads(rest);
    LeadingZero([]);
    assert ['0'] + [] == ['0'];
    assert Header(s) == Some((0, "\r\n" + rest));
    assert ("\r\n" + rest)[0..] == "\r\n" + rest;
  }

  lemma ChunkReads(d: string, rest: string)
    requires 0 < |d| <= SSIZE_MAX
    ensures ReadChunked(Chunk(d) + rest)
      == var r := ReadChunked(rest); Fetched(r.ok, d + r.body, r.rest)
  {
    hide Header, Tail;
    var after := d + ("\r\n" + rest);
    HeadReads(|d|, after);
    assert Chunk(d) + rest == ChunkHead(|d|) + after;
    BlankReads(rest);
    assert after[..|d|] == d && after[|d|..] == "\r\n" + rest;
    ReadFrom(Chunk(d) + rest, |d|, after);
  }

  /** Chunks read back as the data they were made of. */
  lemma {:induction false} ChunksRead(ds: seq<string>, rest: string)
    requires forall i :: 0 <= i < |ds| ==> 0 < |ds[i]| <= SSIZE_MAX
    ensures ReadChunked(Chunks(ds) + rest) == var r := ReadChunked(rest); Fetched(r.ok, Flat(ds) + r.body, r.rest)
    decreases |ds|
  {
    hide Chunk, ReadChunked;
    if ds == [] {
      assert Chunks(ds) + rest == rest && Flat(ds) + ReadChunked(rest).body == ReadChunked(rest).body;
    } else {
      var init, d := ds[..|ds| - 1], ds[|ds| - 1];
      assert Chunks(ds) + rest == Chunks(init) + (Chunk(d) + rest);
      ChunksRead(init, Chunk(d) + rest);
      ChunkReads(d, rest);
      assert init + [d] == ds;
      FlatSnoc(init, d);
      assert Flat(init) + (d + ReadChunked(rest).body) == Flat(ds) + ReadChunked(rest).body;
    }
  }

  /** A whole body reads back as the data given, and reading stops where it ends. */
  lemma BodyReadsBack(ds: seq<string>, rest: string)
    requires forall i :: 0 <= i < |ds| ==> 0 < |ds[i]| <= SSIZE_MAX
    ensures ReadChunked(Chunks(ds) + LAST + rest) == Fetched(true, Flat(ds), rest)
  {
    hide ReadChunked;
    ChunksRead(ds, LAST + rest);
    LastReads(rest);
    assert Chunks(ds) + LAST + rest == Chunks(ds) + (LAST + rest);
    assert Flat(ds) + [] == Flat(ds);
  }

  // ---- from one end to the other ----

  /** What is done between WRW_Chunked and WRW_EndChunk. */
  datatype Op = Data(s: string) | ForceFlush

  function Piece(op: Op): string { if op.Data? then op.s else [] }

  function Given(ops: seq<Op>): string {
    if ops == [] then [] else Given(ops[..|ops| - 1]) + Piece(ops[|ops| - 1])
  }

  lemma GivenNext(ops: seq<Op>, k: nat)
    requires k < |ops|
    ensures Given(ops[..k + 1]) == Given(ops[..k]) + Piece(ops[k])
  {
    assert ops[..k + 1][..k] == ops[..k];
  }

  method Perform(w: Wrw, op: Op)
    requires w.Session()
    modifies w, w.iov
    ensures w.Session() && w.iov == old(w.iov) && w.head == old(w.head) && w.body == old(w.body) + Piece(op)
  {
    if op.Data? { w.Write(op.s); } else { w.Flush(); }
  }

  /** What waits in the buffer goes out. */
  method FlushAll(w: Wrw)
    requires w.Valid() && !w.Chunking()
    modifies w, w.iov
    ensures w.Valid() && w.wire == old(w.wire + w.Pre())
  {
    hide Flat, Chunk;
    NoChunk();
    w.Flush();
  }

  method PerformAll(w: Wrw, ops: seq<Op>)
    requires w.Session() && w.body == []
    modifies w, w.iov
    ensures w.Session() && w.iov == old(w.iov) && w.head == old(w.head) && w.body == Given(ops)
  {
    assert Given(ops[..0]) == [];
    hide Given, Piece;
    var k := 0;
    while k < |ops|
      invariant k <= |ops| && w.Session() && w.body == Given(ops[..k])
      invariant w.head == old(w.head) && w.iov == old(w.iov)
    {
      GivenNext(ops, k);
      Perform(w, ops[k]);
      k := k + 1;
    }
    assert ops[..k] == ops;
  }

  /** A body is sent chunked and the buffer flushed. */
  method Send(w: Wrw, ops: seq<Op>) returns (ghost chunks: seq<string>)
    requires w.Valid() && !w.Chunking()
    modifies w, w.iov
    ensures w.Valid() && w.wire == old(w.wire + w.Pre()) + Chunks(chunks) + LAST
    ensures Flat(chunks) == Given(ops) && forall i :: 0 <= i < |chunks| ==> chunks[i] != []
  {
    hide Flat, Chunks, Given;
    w.Chunked();
    PerformAll(w, ops);
    w.EndChunk();
    chunks := w.chunks;
    FlushAll(w);
  }

  lemma {:induction false} PartsFit(ds: seq<string>, i: nat)
    requires i < |ds|
    ensures |ds[i]| <= |Flat(ds)|
  {
    if i > 0 { PartsFit(ds[1..], i - 1); }
  }

  /** The chunked round trip: whatever is written and flushed in between, whatever waited in the buffer
      before, and however the bytes arrive, what is fetched is what was given, and what follows the body on
      the connection is left. */
  method RoundTrip(w: Wrw, ops: seq<Op>, rest: string, chunksize: nat) returns (i: int, obj: Object, htc: HttpConn)
    requires w.Valid() && !w.Chunking() && chunksize > 0 && |Given(ops)| <= SSIZE_MAX
    modifies w, w.iov
    ensures i == 0 && obj.Valid() && Contents(obj.store) == Given(ops) && htc.input == rest
  {
    hide ReadChunked, Flat, Chunks, Chunk;
    ghost var before := w.wire + w.Pre();
    var n := |w.wire| + w.liov;
    ghost var chunks := Send(w, ops);
    forall k | 0 <= k < |chunks| ensures 0 < |chunks[k]| <= SSIZE_MAX { PartsFit(chunks, k); }
    BodyReadsBack(chunks, rest);
    assert w.wire[n..] == Chunks(chunks) + LAST;
    htc := new HttpConn(w.wire[n..] + rest);
    obj := new Object();
    i := FetchChunked(htc, obj, chunksize);
  }
}
