/** Reading a chunked body: the lenient grammar of fetch_chunked, and the method that follows it byte by
    byte over partial reads into storage segments. */
module ChunkReader {
  import opened Vct
  import opened Hex
  import opened Wrappers
  import opened Seqs

  // ---- the grammar ----

  function SkipWhite(s: string): (r: string)
    ensures |r| <= |s| && (r != [] ==> !IsLws(r[0]))
  {
    if s != [] && IsLws(s[0]) then SkipWhite(s[1..]) else s
  }

  const BUFSIZE: nat := 20

  /** Collects hex digits behind `buf`, dropping zeros behind a single zero, as long as there is room. */
  function Digits(buf: string, s: string): (r: (string, string))
    requires 0 < |buf| <= BUFSIZE && AllHex(buf[1..])
    ensures |buf| <= |r.0| <= BUFSIZE && AllHex(r.0[1..]) && |r.1| <= |s|
    decreases |s|
  {
    if |buf| == BUFSIZE || s == [] then (buf, s)
    else if |buf| == 1 && buf[0] == '0' && s[0] == '0' then Digits(buf, s[1..])
    else if IsHex(s[0]) then Digits(buf + [s[0]], s[1..])
    else (buf, s)
  }

  /** White space up to the line feed. */
  function SkipBlank(s: string): (r: string)
    ensures |r| <= |s|
  {
    if s != [] && IsLws(s[0]) && s[0] != '\n' then SkipBlank(s[1..]) else s
  }

  /** The length of a chunk and what follows its line; None for any error. */
  function Header(s: string): (r: Option<(nat, string)>)
    ensures r.Some? ==> |r.value.1| < |s|
  {
    var a := SkipWhite(s);
    if a == [] then None
    else
      var (buf, b) := Digits([a[0]], a[1..]);
      if |buf| == BUFSIZE || b == [] then None
      else
        var c := SkipBlank(b);
        if c == [] || c[0] != '\n' then None
        else
          var cl := FetchNumber(buf);
          if cl.None? then None else Some((cl.value, c[1..]))
  }

  /** The line end after a chunk. */
  function Tail(s: string): (r: Option<string>)
    ensures r.Some? ==> |r.value| < |s|
  {
    if s == [] then None
    else if s[0] == '\n' then Some(s[1..])
    else if s[0] == '\r' && |s| > 1 && s[1] == '\n' then Some(s[2..])
    else None
  }

  /** What a read of a chunked body stores, whether it succeeds, and what input it leaves then. */
  datatype Fetched = Fetched(ok: bool, body: string, rest: string)

  function Failed(body: string): Fetched { Fetched(false, body, []) }

  function ReadChunked(s: string): Fetched
    decreases |s|
  {
    match Header(s)
    case None => Failed([])
    case Some((cl, d)) =>
      if |d| < cl then Failed(d)
      else
        match Tail(d[cl..])
        case None => Failed(d[..cl])
        case Some(f) =>
          if cl == 0 then Fetched(true, [], f)
          else
            var r := ReadChunked(f);
            Fetched(r.ok, d[..cl] + r.body, r.rest)
  }

  // ---- the connection and the storage ----

  /** A backend connection: the bytes still to come, read in pieces of any size. */
  class HttpConn {
    var input: string

    constructor (input: string)
      ensures this.input == input
    {
      this.input := input;
    }

    /** HTC_Read: between one and `len` bytes, as many as happen to be there; nothing at the end. */
    method Read(len: nat) returns (d: string)
      requires len > 0
      modifies this
      ensures |d| <= len && old(input) == d + input && (d == [] <==> old(input) == [])
    {
      if input == [] { return []; }
      var max := if len < |input| then len else |input|;
      var n :| 0 < n <= max;
      d := input[..n];
      input := input[n..];
    }
  }

  /** A storage segment: what it holds of what it could. */
  datatype Segment = Segment(data: string, space: nat)

  function Contents(store: seq<Segment>): string {
    if store == [] then [] else Contents(store[..|store| - 1]) + store[|store| - 1].data
  }

  /** Segments are filled one after the other: only the last can have room left. */
  ghost predicate StoreOK(store: seq<Segment>) {
    && (forall i :: 0 <= i < |store| ==> |store[i].data| <= store[i].space)
    && (forall i :: 0 <= i < |store| - 1 ==> |store[i].data| == store[i].space)
  }

  class Object {
    var store: seq<Segment>
    var len: nat

    ghost predicate Valid() reads this {
      StoreOK(store) && len == |Contents(store)|
    }

    constructor ()
      ensures Valid() && store == []
    {
      store, len := [], 0;
    }

    /** FetchStorage: the last segment if it has room, else a new one of `chunksize`. */
    method FetchStorage(chunksize: nat)
      requires Valid() && chunksize > 0
      modifies this
      ensures Valid() && Contents(store) == old(Contents(store))
      ensures store != [] && |store[|store| - 1].data| < store[|store| - 1].space
    {
      if store != [] && |store[|store| - 1].data| < store[|store| - 1].space { return; }
      ghost var was := store;
      store := store + [Segment([], chunksize)];
      assert store[..|store| - 1] == was;
    }

    /** Bytes read into the last segment. */
    method Append(d: string)
      requires Valid() && store != []
      requires |store[|store| - 1].data| + |d| <= store[|store| - 1].space
      modifies this
      ensures Valid() && store != [] && Contents(store) == old(Contents(store)) + d
    {
      ghost var was := store;
      var st := store[|store| - 1];
      store := store[|store| - 1 := Segment(st.data + d, st.space)];
      len := len + |d|;
      assert store[..|store| - 1] == was[..|was| - 1];
    }

    /** vfp_nop_bytes: `bytes` bytes go from the connection to storage, or all there are. */
    method Bytes(htc: HttpConn, bytes: nat, chunksize: nat) returns (i: int)
      requires Valid() && chunksize > 0
      modifies this, htc
      ensures Valid() && (i == 1 || i == 0) && (i == 1 <==> |old(htc.input)| >= bytes)
      ensures var n := if i == 1 then bytes else |old(htc.input)|;
        && Contents(store) == old(Contents(store)) + old(htc.input)[..n]
        && htc.input == old(htc.input)[n..]
    {
      hide Contents, StoreOK;
      var left := bytes;
      ghost var got, base, input := "", Contents(store), htc.input;
      while left > 0
        invariant Valid() && 0 <= left && left + |got| == bytes
        invariant input == got + htc.input && Contents(store) == base + got
        decreases left
      {
        FetchStorage(chunksize);
        var st := store[|store| - 1];
        var l := st.space - |st.data|;
        if l > left { l := left; }
        var d := htc.Read(l);
        if d == [] {
          assert input == got && input[..|got|] == got;
          return 0;
        }
        Append(d);
        left := left - |d|;
        Assoc(got, d, htc.input);
        Assoc(base, got, d);
        got := got + d;
      }
      assert input[..bytes] == got && input[bytes..] == htc.input;
      i := 1;
    }
  }

  // ---- fetch_chunked ----

  /** CERR on a single byte. */
  method ReadByte(htc: HttpConn) returns (ok: bool, c: char)
    modifies htc
    ensures ok <==> old(htc.input) != []
    ensures ok ==> c == old(htc.input)[0] && htc.input == old(htc.input)[1..]
    ensures !ok ==> htc.input == []
  {
    var d := htc.Read(1);
    ok, c := d != [], if d == [] then '\0' else d[0];
  }

  /** The hex digits of a chunk header and the character that ends them. */
  method ReadDigits(htc: HttpConn, c0: char) returns (ok: bool, digits: string, c: char)
    modifies htc
    ensures ok <==> var d := Digits([c0], old(htc.input)); |d.0| < BUFSIZE && d.1 != []
    ensures ok ==> Digits([c0], old(htc.input)) == (digits, [c] + htc.input)
  {
    ghost var s := htc.input;
    var buf := new char[BUFSIZE];
    buf[0] := c0;
    var u := 1;
    c := c0;
    assert buf[..1] == [c0];
    while u < BUFSIZE
      invariant 1 <= u <= BUFSIZE && AllHex(buf[..u][1..])
      invariant Digits([c0], s) == Digits(buf[..u], htc.input)
      decreases |htc.input|
    {
      ghost var left, got := htc.input, buf[..];
      ok, c := ReadByte(htc);
      if !ok { return false, [], c; }
      assert left == [c] + htc.input;
      while u == 1 && buf[0] == '0' && c == '0'
        invariant buf[..] == got && buf[..u] == got[..u] && ok && |htc.input| < |left|
        invariant Digits([c0], s) == Digits(got[..u], [c] + htc.input)
        decreases |htc.input|
      {
        assert ([c] + htc.input)[1..] == htc.input;
        ghost var rest := htc.input;
        ok, c := ReadByte(htc);
        if !ok { return false, [], c; }
        assert rest == [c] + htc.input;
      }
      buf[u] := c;
      if !IsHex(c) { return true, buf[..u], c; }
      assert ([c] + htc.input)[1..] == htc.input && buf[..u + 1] == got[..u] + [c];
      assert AllHex(buf[..u + 1][1..]) by { assert buf[..u + 1][1..] == got[..u][1..] + [c]; }
      u := u + 1;
    }
    ok, digits := false, [];
  }

  /** The first line of a chunk. */
  method ReadHeader(htc: HttpConn) returns (cl: Option<nat>)
    modifies htc
    ensures cl.Some? <==> Header(old(htc.input)).Some?
    ensures cl.Some? ==> Header(old(htc.input)) == Some((cl.value, htc.input))
  {
    cl := None;
    ghost var s := htc.input;
    var ok, c := ReadByte(htc);
    if !ok { return; }
    assert s == [c] + htc.input;
    while IsLws(c)
      invariant SkipWhite(s) == SkipWhite([c] + htc.input)
      decreases |htc.input|
    {
      assert ([c] + htc.input)[1..] == htc.input;
      ghost var rest := htc.input;
      ok, c := ReadByte(htc);
      if !ok { return; }
      assert rest == [c] + htc.input;
    }
    ghost var a := [c] + htc.input;
    assert SkipWhite(s) == a && a[1..] == htc.input;
    var buf;
    ok, buf, c := ReadDigits(htc, c);
    if !ok { return; }
    ghost var b := [c] + htc.input;
    while IsLws(c) && c != '\n'
      invariant SkipBlank(b) == SkipBlank([c] + htc.input)
      decreases |htc.input|
    {
      assert ([c] + htc.input)[1..] == htc.input;
      ghost var rest := htc.input;
      ok, c := ReadByte(htc);
      if !ok { return; }
      assert rest == [c] + htc.input;
    }
    assert SkipBlank(b) == [c] + htc.input && ([c] + htc.input)[1..] == htc.input;
    if c != '\n' { return; }
    cl := FetchNumber(buf);
  }

  /** The line end after a chunk. */
  method ReadTail(htc: HttpConn) returns (ok: bool)
    modifies htc
    ensures ok <==> Tail(old(htc.input)).Some?
    ensures ok ==> Tail(old(htc.input)) == Some(htc.input)
  {
    var c;
    ok, c := ReadByte(htc);
    if !ok { return; }
    if c == '\r' {
      ok, c := ReadByte(htc);
      if !ok { return; }
    }
    ok := c == '\n';
  }

  /** Where a read stands: what it will come to is what it stored and what is still to be read. */
  ghost predicate Underway(all: Fetched, got: string, left: string) {
    var r := ReadChunked(left);
    all == Fetched(r.ok, got + r.body, r.rest)
  }

  /** One chunk: None if it cannot be read. */
  method FetchChunk(htc: HttpConn, obj: Object, chunksize: nat) returns (cl: Option<nat>)
    requires obj.Valid() && chunksize > 0
    modifies htc, obj
    ensures obj.Valid()
    ensures ChunkRead(old(htc.input), cl, old(Contents(obj.store)), Contents(obj.store), htc.input)
  {
    hide Contents;
    ghost var s, got := htc.input, Contents(obj.store);
    cl := ReadHeader(htc);
    if cl.None? {
      assert got + [] == got;
      return None;
    }
    ghost var d := htc.input;
    hide Header, Tail;
    if cl.value > 0 {
      var k := obj.Bytes(htc, cl.value, chunksize);
      if k != 1 { return None; }
    } else {
      assert got + d[..0] == got;
    }
    var ok := ReadTail(htc);
    if !ok { return None; }
  }

  /** What reading one chunk from `s` has done. */
  ghost predicate ChunkRead(s: string, cl: Option<nat>, got: string, got': string, left: string) {
    match Header(s)
    case None => cl.None? && got' == got
    case Some((n, d)) =>
      if |d| < n then cl.None? && got' == got + d[..|d|]
      else
        && got' == got + d[..n]
        && cl == (if Tail(d[n..]).Some? then Some(n) else None)
        && (cl.Some? ==> left == Tail(d[n..]).value)
  }

  lemma NoHeader(s: string)
    requires Header(s).None?
    ensures ReadChunked(s) == Failed([])
  {
  }

  lemma ChunkReadStep(all: Fetched, s: string, cl: Option<nat>, got: string, got': string, left: string)
    requires Underway(all, got, s) && ChunkRead(s, cl, got, got', left)
    ensures cl.None? ==> !all.ok && all.body == got'
    ensures cl.Some? ==> |left| < |s|
    ensures cl == Some(0) ==> all == Fetched(true, got', left)
    ensures cl.Some? && cl.value > 0 ==> Underway(all, got', left)
  {
    hide Header, Tail, ReadChunked;
    if Header(s).None? {
      NoHeader(s);
    } else {
      var (n, d) := Header(s).value;
      ReadFrom(s, n, d);
      if cl.Some? && n > 0 { assert got + (d[..n] + ReadChunked(left).body) == got' + ReadChunked(left).body; }
    }
  }

  /** fetch_chunked: whatever the pieces the input comes in, it follows the grammar, and what it stores is
      the body. */
  method FetchChunked(htc: HttpConn, obj: Object, chunksize: nat) returns (i: int)
    requires obj.Valid() && obj.store == [] && chunksize > 0
    modifies htc, obj
    ensures obj.Valid() && (i == 0 || i == -1)
    ensures var r := ReadChunked(old(htc.input));
      (i == 0 <==> r.ok) && Contents(obj.store) == r.body && (i == 0 ==> htc.input == r.rest)
  {
    ghost var all := ReadChunked(htc.input);
    assert Contents(obj.store) == [] && [] + all.body == all.body;
    hide Contents, ChunkRead;
    var done := false;
    while !done
      invariant obj.Valid()
      invariant done ==> all == Fetched(true, Contents(obj.store), htc.input)
      invariant !done ==> Underway(all, Contents(obj.store), htc.input)
      decreases !done, |htc.input|
    {
      ghost var s, got := htc.input, Contents(obj.store);
      var cl := FetchChunk(htc, obj, chunksize);
      ChunkReadStep(all, s, cl, got, Contents(obj.store), htc.input);
      if cl.None? { return -1; }
      done := cl.value == 0;
    }
    i := 0;
  }

  /** How a body goes on after the first line of a chunk. */
  lemma ReadFrom(s: string, cl: nat, d: string)
    requires Header(s) == Some((cl, d))
    ensures |d| < |s|
    ensures |d| < cl ==> ReadChunked(s) == Failed(d[..|d|])
    ensures |d| >= cl && Tail(d[cl..]).None? ==> ReadChunked(s) == Failed(d[..cl])
    ensures |d| >= cl && Tail(d[cl..]).Some? ==>
      var f := Tail(d[cl..]).value;
      && |f| < |s|
      && (cl == 0 ==> ReadChunked(s) == Fetched(true, [], f))
      && (cl > 0 ==>
            var r := ReadChunked(f); ReadChunked(s) == Fetched(r.ok, d[..cl] + r.body, r.rest))
  {
  }
}
