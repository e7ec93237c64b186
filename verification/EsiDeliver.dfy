/** ESI_Deliver for an ungzipped object and response: instructions replayed over segmented storage. */
module EsiDeliver {
  import opened Seqs
  import opened Endian
  import opened EsiMarks
  import opened EsiStep
  import opened EsiCode

  /** The storage from segment `st` on, less the first `off` bytes. */
  ghost function Left(store: seq<string>, st: nat, off: nat): string
    requires st <= |store|
    requires off <= |Flat(store[st..])|
  {
    Flat(store[st..])[off..]
  }

  ghost predicate At(store: seq<string>, st: nat, off: nat) {
    st <= |store| && (if st < |store| then off <= |store[st]| else off == 0)
  }

  lemma AtBounds(store: seq<string>, st: nat, off: nat)
    requires At(store, st, off)
    ensures off <= |Flat(store[st..])|
    ensures st < |store| ==> Left(store, st, off) == store[st][off..] + Flat(store[st + 1..])
    ensures st == |store| ==> Left(store, st, off) == []
  {
    if st < |store| {
      assert store[st..][0] == store[st] && store[st..][1..] == store[st + 1..];
    }
  }

  /** Going `l2` bytes ahead inside a segment. */
  lemma Chunk(store: seq<string>, st: nat, off: nat, l2: nat)
    requires At(store, st, off) && st < |store| && l2 <= |store[st]| - off
    ensures off + l2 <= |Flat(store[st..])| && |Left(store, st, off)| >= l2
    ensures Left(store, st, off + l2) == Left(store, st, off)[l2..]
    ensures store[st][off..off + l2] == Left(store, st, off)[..l2]
  {
    AtBounds(store, st, off);
    AtBounds(store, st, off + l2);
  }

  lemma SegmentEnd(store: seq<string>, st: nat)
    requires st < |store|
    ensures At(store, st + 1, 0) && |store[st]| <= |Flat(store[st..])|
    ensures Left(store, st + 1, 0) == Left(store, st, |store[st]|)
  {
    AtBounds(store, st, |store[st]|);
    AtBounds(store, st + 1, 0);
  }

  /** One pass of the inner loops: as much of `l` bytes as the segment has, and on to the next segment
      if this one is used up. */
  method Step(store: seq<string>, st0: nat, off0: nat, l: nat)
    returns (st: nat, off: nat, l2: nat, chunk: string)
    requires At(store, st0, off0) && off0 <= |Flat(store[st0..])| && 0 < l <= |Left(store, st0, off0)|
    ensures At(store, st, off) && off <= |Flat(store[st..])|
    ensures l2 <= l && (l2 > 0 || st0 < st <= |store|)
    ensures chunk == Left(store, st0, off0)[..l2]
    ensures Left(store, st, off) == Left(store, st0, off0)[l2..]
  {
    NotAtEnd(store, st0, off0);
    l2 := l;
    if l2 > |store[st0]| - off0 { l2 := |store[st0]| - off0; }
    Chunk(store, st0, off0, l2);
    chunk := store[st0][off0..off0 + l2];
    st, off := st0, off0 + l2;
    if off == |store[st]| {
      SegmentEnd(store, st);
      st, off := st + 1, 0;
    }
  }

  /** The inner loop of both verbatim and skip: walk `l0` bytes ahead, over segment ends. The bytes
      passed are sent for the one and dropped for the other. */
  method Walk(store: seq<string>, st0: nat, off0: nat, l0: nat)
    returns (st: nat, off: nat, passed: string)
    requires At(store, st0, off0)
    requires off0 <= |Flat(store[st0..])| && l0 <= |Left(store, st0, off0)|
    ensures At(store, st, off) && off <= |Flat(store[st..])|
    ensures Left(store, st, off) == Left(store, st0, off0)[l0..]
    ensures passed == Left(store, st0, off0)[..l0]
  {
    hide Flat;
    ghost var body := Left(store, st0, off0);
    ghost var left := body;
    st, off, passed := st0, off0, [];
    var l := l0;
    while l > 0
      invariant 0 <= l <= l0 && At(store, st, off) && off <= |Flat(store[st..])|
      invariant left == Left(store, st, off) && passed + left == body && |passed| == l0 - l
      decreases l, |store| - st
    {
      var l2, chunk;
      st, off, l2, chunk := Step(store, st, off, l);
      assert left == chunk + left[l2..];
      l, left, passed := l - l2, left[l2..], passed + chunk;
    }
  }

  lemma NotAtEnd(store: seq<string>, st: nat, off: nat)
    requires At(store, st, off) && off <= |Flat(store[st..])| && |Left(store, st, off)| > 0
    ensures st < |store|
  {
    AtBounds(store, st, off);
  }

  /** strchr from `p`, where the string `u` ends. */
  method FindNul(s: string, p: nat, ghost u: string, ghost rest: string) returns (q: nat)
    requires p <= |s| && s[p..] == u + rest && rest != [] && rest[0] == '\0' && '\0' !in u
    ensures q == p + |u| && q < |s| && s[p..q] == u && s[q..] == rest
  {
    q := p;
    assert forall i :: p <= i < p + |u| ==> s[i] == s[p..][i - p] == u[i - p];
    assert s[p + |u|] == s[p..][|u|] == '\0';
    while s[q] != '\0'
      invariant p <= q <= p + |u| < |s|
      decreases p + |u| - q
    {
      q := q + 1;
    }
    assert s[p..q] == s[p..][..|u|] == u;
    assert s[q..] == s[p..][|u|..] == rest;
  }

  /** What one instruction sends. */
  ghost function Piece(i: Instr, left: string): seq<Out>
    requires Width(i) <= |left|
  {
    match i
    case Verbatim(n) => Bytes(left[..n])
    case Skip(n) => []
    case Include(_, _) => [ChildOf(i)]
  }

  lemma CodeStep(code: seq<Instr>, k: nat)
    requires k < |code|
    ensures Span(code[k..]) == Width(code[k]) + Span(code[k + 1..])
    ensures EncodeAll(code[k..]) == Encode(code[k]) + EncodeAll(code[k + 1..])
  {
    assert code[k..][0] == code[k] && code[k..][1..] == code[k + 1..];
  }

  lemma RenderStep(code: seq<Instr>, k: nat, left: string, out: seq<Out>)
    requires k < |code| && Span(code[k..]) <= |left|
    ensures Width(code[k]) <= |left| && Span(code[k + 1..]) <= |left[Width(code[k])..]|
    ensures out + Render(code[k..], left)
      == out + Piece(code[k], left) + Render(code[k + 1..], left[Width(code[k])..])
  {
    CodeStep(code, k);
    RenderFront(code[k..], left);
    assert code[k..][0] == code[k] && code[k..][1..] == code[k + 1..];
    hide Render, Piece, Span;
    Joined(out, Piece(code[k], left), Render(code[k + 1..], left[Width(code[k])..]));
  }

  lemma Joined(a: seq<Out>, b: seq<Out>, c: seq<Out>)
    ensures a + (b + c) == a + b + c
  {
  }

  lemma RenderFront(code: seq<Instr>, left: string)
    requires code != [] && Span(code) <= |left|
    ensures Render(code, left) == Piece(code[0], left) + Render(code[1..], left[Width(code[0])..])
  {
  }

  /** The switch of ESI_Deliver on the instruction byte. */
  lemma FirstByte(i: Instr)
    ensures Encode(i)[0] == VEC_INCL <==> i.Include?
    ensures !i.Include? ==> ((Encode(i)[0] as nat) / 16 == 4 <==> i.Verbatim?)
  {
  }

  /** Reads the two strings of an include instruction. */
  method ReadStrings(codes: string, p: nat, ghost host: string, ghost path: string, ghost rest: string)
    returns (child: Out, next: nat)
    requires p <= |codes| && codes[p..] == host + (['\0'] + (path + (['\0'] + rest)))
    requires '\0' !in host && '\0' !in path
    ensures p < next <= |codes| && codes[next..] == rest && child == Child(host, path)
  {
    var q := FindNul(codes, p, host, ['\0'] + (path + (['\0'] + rest)));
    assert codes[q + 1..] == codes[q..][1..];
    var r := FindNul(codes, q + 1, path, ['\0'] + rest);
    assert codes[r + 1..] == codes[r..][1..];
    child := Child(codes[p..q], codes[q + 1..r]);
    next := r + 1;
  }

  lemma IncludeBytes(i: Instr, rest: string)
    requires i.Include?
    ensures var (host, path) := IncludeOf(i.src, i.url);
      && (Encode(i) + rest)[1..] == host + (['\0'] + (path + (['\0'] + rest)))
      && '\0' !in host && '\0' !in path
  {
    IncludeHasNoNul(i.src, i.url);
    var (host, path) := IncludeOf(i.src, i.url);
    IncludeJoin(host, path, rest);
  }

  lemma IncludeJoin(host: string, path: string, rest: string)
    ensures ([VEC_INCL] + host + ['\0'] + path + ['\0'] + rest)[1..]
      == host + (['\0'] + (path + (['\0'] + rest)))
  {
  }

  method ReadInclude(codes: string, p: nat, ghost i: Instr, ghost rest: string)
    returns (child: Out, next: nat)
    requires p < |codes| && codes[p..] == Encode(i) + rest && codes[p] == VEC_INCL
    ensures i.Include? && child == ChildOf(i)
    ensures p < next <= |codes| && codes[next..] == rest
  {
    assert codes[p] == codes[p..][0];
    FirstByte(i);
    IncludeBytes(i, rest);
    assert codes[p + 1..] == codes[p..][1..];
    child, next := ReadStrings(codes, p + 1, IncludeOf(i.src, i.url).0, IncludeOf(i.src, i.url).1, rest);
  }

  ghost function ChildOf(i: Instr): Out
    requires i.Include?
  {
    Child(IncludeOf(i.src, i.url).0, IncludeOf(i.src, i.url).1)
  }

  /** Where the deliverer stands: the codes from `p` on are those of `code` from `k` on, and what was
      sent plus what these mean for the storage left is what all of `code` means for the body. */
  ghost predicate Underway(codes: string, p: nat, code: seq<Instr>, k: nat, body: string, left: string,
                           out: seq<Out>) {
    && p <= |codes| && k <= |code| && codes[p..] == EncodeAll(code[k..])
    && Span(code[k..]) <= |left| <= |body| && left == body[|body| - |left|..]
    && Span(code) - Span(code[k..]) == |body| - |left|
    && Span(code) <= |body|
    && out + Render(code[k..], left) == Render(code, body)
  }

  lemma Onward(codes: string, p: nat, p': nat, code: seq<Instr>, k: nat, body: string, left: string,
               out: seq<Out>)
    requires Underway(codes, p, code, k, body, left, out) && p < |codes| && k < |code|
    requires p < p' <= |codes| && codes[p'..] == EncodeAll(code[k + 1..])
    ensures Width(code[k]) <= |left|
    ensures Underway(codes, p', code, k + 1, body, left[Width(code[k])..],
                     out + Piece(code[k], left))
  {
    hide Render, Piece, EncodeAll;
    CodeStep(code, k);
    RenderStep(code, k, left, out);
  }

  lemma NotDone(codes: string, p: nat, code: seq<Instr>, k: nat)
    requires p < |codes| && k <= |code| && codes[p..] == EncodeAll(code[k..])
    ensures k < |code|
    ensures codes[p..] == Encode(code[k]) + EncodeAll(code[k + 1..])
    ensures codes[p] == Encode(code[k])[0]
  {
    if k < |code| { CodeStep(code, k); }
    assert codes[p] == codes[p..][0];
  }

  /** Reads a verbatim or skip instruction. */
  method ReadLen(codes: string, p: nat, ghost i: Instr, ghost rest: string)
    returns (verbatim: bool, l: nat, next: nat)
    requires p < |codes| && codes[p..] == Encode(i) + rest && codes[p] != VEC_INCL
    requires !i.Include? ==> 0 < Width(i) <= SSIZE_MAX
    ensures !i.Include? && verbatim == i.Verbatim? && l == Width(i)
    ensures p < next <= |codes| && codes[next..] == rest
  {
    assert codes[p] == codes[p..][0];
    FirstByte(i);
    verbatim := (codes[p] as nat) / 16 == 4;
    DecodeEmitted(Width(i), if i.Verbatim? then VEC_V else VEC_S, rest);
    var d := DecodeLen(codes[p..]);
    l, next := d.value.0, p + d.value.1;
    assert codes[next..] == codes[p..][d.value.1..];
  }

  /** One instruction: what it sends, and where the codes and the storage go on. */
  method Instruction(codes: string, p: nat, store: seq<string>, st0: nat, off0: nat, ghost code: seq<Instr>,
                     ghost k: nat, ghost body: string, ghost left: string, ghost out: seq<Out>)
    returns (sent: seq<Out>, next: nat, st: nat, off: nat)
    requires Sendable(code) && p < |codes| && Underway(codes, p, code, k, body, left, out)
    requires Placed(store, st0, off0, left)
    ensures k < |code| && Width(code[k]) <= |left| && p < next <= |codes|
    ensures Placed(store, st, off, left[Width(code[k])..])
    ensures Underway(codes, next, code, k + 1, body, left[Width(code[k])..], out + sent)
  {
    NotDone(codes, p, code, k);
    ghost var i := code[k];
    ghost var rest := EncodeAll(code[k + 1..]);
    CodeStep(code, k);
    st, off := st0, off0;
    if codes[p] == VEC_INCL {
      var child;
      child, next := ReadInclude(codes, p, i, rest);
      sent := [child];
    } else {
      var verbatim, l;
      verbatim, l, next := ReadLen(codes, p, i, rest);
      var passed;
      st, off, passed := Walk(store, st, off, l);
      sent := if verbatim then Bytes(passed) else [];
    }
    assert sent == Piece(i, left);
    Onward(codes, p, next, code, k, body, left, out);
  }

  /** The place in the storage, and what is left from there. */
  ghost predicate Placed(store: seq<string>, st: nat, off: nat, left: string) {
    At(store, st, off) && off <= |Flat(store[st..])| && left == Left(store, st, off)
  }

  lemma Start(codes: string, store: seq<string>, code: seq<Instr>)
    requires codes == EncodeAll(code) && Span(code) <= |Flat(store)|
    ensures Placed(store, 0, 0, Flat(store))
    ensures Underway(codes, 0, code, 0, Flat(store), Flat(store), [])
  {
    assert store[0..] == store && code[0..] == code && codes[0..] == codes;
  }

  lemma AllSent(codes: string, code: seq<Instr>, k: nat, body: string, left: string, out: seq<Out>)
    requires Underway(codes, |codes|, code, k, body, left, out)
    ensures out == Render(code, body) && left == body[Span(code)..]
  {
    NothingLeft(code[k..]);
  }

  /** ESI_Deliver: whatever the segmentation, what is sent is what the instructions mean for the body,
      and the storage that is left is what they do not account for. */
  method Deliver(codes: string, store: seq<string>, ghost code: seq<Instr>)
    returns (out: seq<Out>, ghost left: string)
    requires codes == EncodeAll(code) && Sendable(code) && Span(code) <= |Flat(store)|
    ensures out == Render(code, Flat(store))
    ensures left == Flat(store)[Span(code)..]
  {
    Start(codes, store, code);
    out, left := [], Flat(store);
    var p: nat, st: nat, off: nat := 0, 0, 0;
    ghost var k: nat := 0;
    hide Underway, Placed, Flat, Render, EncodeAll, Span;
    ghost var body := left;
    while p < |codes|
      invariant p <= |codes| && Placed(store, st, off, left) && Underway(codes, p, code, k, body, left, out)
      decreases |codes| - p
    {
      var sent;
      sent, p, st, off := Instruction(codes, p, store, st, off, code, k, body, left, out);
      out, left, k := out + sent, left[Width(code[k])..], k + 1;
    }
    AllSent(codes, code, k, body, left, out);
  }

  lemma NothingLeft(code: seq<Instr>)
    requires EncodeAll(code) == []
    ensures code == []
  {
  }
}
