/** What storage looks like to a client, going by the marks made so far. */
module EsiViews {
  import opened Seqs
  import opened EsiMarks
  import opened EsiCode
  import opened EsiWhole
  import opened EsiExact

  lemma {:induction false} RenderJoin(a: seq<Instr>, b: seq<Instr>, body: string)
    requires Span(a) + Span(b) <= |body|
    ensures Span(a + b) == Span(a) + Span(b)
    ensures Render(a + b, body) == Render(a, body) + Render(b, body[Span(a)..])
  {
    SpanConcat(a, b);
    if a == [] {
      assert a + b == b && body[0..] == body;
    } else {
      var w, rest := Width(a[0]), body[Width(a[0])..];
      assert (a + b)[0] == a[0] && (a + b)[1..] == a[1..] + b;
      RenderJoin(a[1..], b, rest);
      assert rest[Span(a[1..])..] == body[Span(a)..];
      Assoc(Piece(a[0], body), Render(a[1..], rest), Render(b, body[Span(a)..]));
      RenderFirst(a + b, body);
      RenderFirst(a, body);
    }
  }

  /** What one instruction sends. */
  function Piece(i: Instr, body: string): seq<Out>
    requires Width(i) <= |body|
  {
    match i
    case Verbatim(n) => Bytes(body[..n])
    case Skip(n) => []
    case Include(src, url) => [Child(IncludeOf(src, url).0, IncludeOf(src, url).1)]
  }

  lemma RenderFirst(code: seq<Instr>, body: string)
    requires code != [] && Span(code) <= |body|
    ensures Render(code, body) == Piece(code[0], body) + Render(code[1..], body[Width(code[0])..])
  {
  }

  lemma RenderOne(i: Instr, body: string)
    requires Width(i) <= |body|
    ensures Span([i]) == Width(i) && Render([i], body) == Piece(i, body)
  {
    assert [i][1..] == [] && Span([]) == 0;
  }

  /** Bytes behind those accounted for do not matter. */
  lemma {:induction false} RenderFront(code: seq<Instr>, body: string, more: string)
    requires Span(code) <= |body|
    ensures Render(code, body + more) == Render(code, body)
  {
    if code != [] {
      var w := Width(code[0]);
      assert (body + more)[..w] == body[..w] && (body + more)[w..] == body[w..] + more;
      RenderFront(code[1..], body[w..], more);
    }
  }

  lemma BytesJoined(a: string, b: string)
    ensures Bytes(a + b) == Bytes(a) + Bytes(b)
  {
  }

  /** What is sent of the bytes marked so far. */
  function View(mk: Marks, body: string): seq<Out>
    requires Span(Emitted(mk)) <= |body|
  {
    Render(Emitted(mk), body)
  }

  lemma EmittedSpan(mk: Marks)
    requires Conserved(mk)
    ensures Span(Emitted(mk)) == mk.cb_x
  {
    SpanIsTotal(Emitted(mk));
    if mk.o_wait > 0 {
      var i := if mk.last_mark == SKIP then Skip(mk.o_wait) else Verbatim(mk.o_wait);
      assert (mk.code + [i])[..|mk.code|] == mk.code;
    }
  }

  function MarkInstr(n: nat, mark: Mark): Instr { if mark == SKIP then Skip(n) else Verbatim(n) }

  /** One more instruction behind others. */
  lemma RenderSnoc(code: seq<Instr>, i: Instr, body: string)
    requires Span(code) + Width(i) <= |body|
    ensures Span(code + [i]) == Span(code) + Width(i)
    ensures Render(code + [i], body) == Render(code, body) + Piece(i, body[Span(code)..])
  {
    RenderOne(i, body[Span(code)..]);
    RenderJoin(code, [i], body);
  }

  /** A longer run of the same mark. */
  lemma RenderLonger(code: seq<Instr>, w: nat, n: nat, mark: Mark, body: string)
    requires Span(code) + w + n <= |body|
    ensures Span(code + [MarkInstr(w, mark)]) <= |body| && Span(code + [MarkInstr(w + n, mark)]) <= |body|
    ensures var at := Span(code) + w;
      Render(code + [MarkInstr(w + n, mark)], body)
      == Render(code + [MarkInstr(w, mark)], body) + Piece(MarkInstr(n, mark), body[at..])
  {
    hide Render, Span, Bytes, Piece;
    MarkWidth(w, mark);
    MarkWidth(w + n, mark);
    RenderSnoc(code, MarkInstr(w, mark), body);
    RenderSnoc(code, MarkInstr(w + n, mark), body);
    LongerPiece(w, n, mark, body[Span(code)..]);
    assert body[Span(code)..][w..] == body[Span(code) + w..];
    MarkWidth(n, mark);
    Assoc(Render(code, body), Piece(MarkInstr(w, mark), body[Span(code)..]),
          Piece(MarkInstr(n, mark), body[Span(code) + w..]));
  }

  lemma MarkWidth(n: nat, mark: Mark)
    ensures Width(MarkInstr(n, mark)) == n
  {
  }

  lemma LongerPiece(w: nat, n: nat, mark: Mark, s: string)
    requires w + n <= |s|
    ensures Piece(MarkInstr(w + n, mark), s) == Piece(MarkInstr(w, mark), s) + Piece(MarkInstr(n, mark), s[w..])
  {
    assert s[..w + n] == s[..w] + s[w..][..n];
    BytesJoined(s[..w], s[w..][..n]);
  }

  /** Marking sends what was not marked before, or does not. */
  lemma ViewMark(mk: Marks, mark: Mark, body: string)
    requires Conserved(mk) && mk.cb_x + Unmarked(mk) <= |body|
    ensures Conserved(MarkCommon(mk, mark)) && MarkCommon(mk, mark).cb_x == mk.cb_x + Unmarked(mk)
    ensures Span(Emitted(mk)) <= |body| && Span(Emitted(MarkCommon(mk, mark))) <= |body|
    ensures View(MarkCommon(mk, mark), body)
      == View(mk, body) + if mark == VERBATIM then Bytes(body[mk.cb_x..mk.cb_x + Unmarked(mk)]) else []
  {
    hide Render, Span, Emitted, MarkCommon, Piece, Conserved, Bytes, MarkInstr;
    var n := Unmarked(mk);
    MarkCommonConserves(mk, mark);
    MarkedCount(mk, mark);
    EmittedSpan(mk);
    EmittedSpan(MarkCommon(mk, mark));
    assert body[mk.cb_x..mk.cb_x + n] == body[mk.cb_x..][..n];
    MarkPiece(n, mark, body[mk.cb_x..]);
    MarkWidth(n, mark);
    if n == 0 {
      SameEmitted(mk, mark);
      NothingSent();
    } else if mk.last_mark == mark && mk.o_wait > 0 {
      WaitSpan(mk);
      LongerRun(mk, mark);
      RenderLonger(mk.code, mk.o_wait, n, mark, body);
    } else {
      NewRun(mk, mark);
      RenderSnoc(Emitted(mk), MarkInstr(n, mark), body);
    }
  }

  lemma NothingSent()
    ensures Bytes([]) == []
  {
  }

  lemma MarkPiece(n: nat, mark: Mark, s: string)
    requires n <= |s|
    ensures Piece(MarkInstr(n, mark), s) == if mark == VERBATIM then Bytes(s[..n]) else []
  {
  }

  lemma MarkedCount(mk: Marks, mark: Mark)
    requires Conserved(mk)
    ensures MarkCommon(mk, mark).cb_x == mk.cb_x + Unmarked(mk)
  {
  }

  lemma WaitSpan(mk: Marks)
    requires Conserved(mk)
    ensures Span(mk.code) == mk.o_last && mk.cb_x == mk.o_last + mk.o_wait
  {
    SpanIsTotal(mk.code);
  }

  lemma SameEmitted(mk: Marks, mark: Mark)
    requires Conserved(mk) && Unmarked(mk) == 0
    ensures Emitted(MarkCommon(mk, mark)) == Emitted(mk)
  {
  }

  lemma LongerRun(mk: Marks, mark: Mark)
    requires Conserved(mk) && mk.last_mark == mark && mk.o_wait > 0
    ensures Emitted(mk) == mk.code + [MarkInstr(mk.o_wait, mark)]
    ensures Emitted(MarkCommon(mk, mark)) == mk.code + [MarkInstr(mk.o_wait + Unmarked(mk), mark)]
  {
  }

  lemma NewRun(mk: Marks, mark: Mark)
    requires Conserved(mk) && Unmarked(mk) > 0 && !(mk.last_mark == mark && mk.o_wait > 0)
    ensures Emitted(MarkCommon(mk, mark)) == Emitted(mk) + [MarkInstr(Unmarked(mk), mark)]
  {
  }

  /** An include put in front of skipped bytes is sent all the same. */
  lemma RenderEmit(code: seq<Instr>, w: nat, i: Instr, body: string)
    requires Span(code) + w <= |body| && i.Include?
    ensures Span(code + [Skip(w)]) == Span(code + [i] + [Skip(w)]) == Span(code) + w && Span(code + [i]) == Span(code)
    ensures Render(code + [i] + [Skip(w)], body) == Render(code + [Skip(w)], body) + Piece(i, "")
    ensures Render(code + [i], body) == Render(code, body) + Piece(i, "")
  {
    hide Render, Span, Piece, Bytes, IncludeOf;
    RenderSnoc(code, i, body);
    RenderSnoc(code, Skip(w), body);
    RenderSnoc(code + [i], Skip(w), body);
    SkipsNothing(w, body[Span(code)..]);
    IncludesAnywhere(i, body[Span(code)..]);
  }

  lemma SkipsNothing(w: nat, s: string)
    requires w <= |s|
    ensures Piece(Skip(w), s) == []
  {
  }

  lemma IncludesAnywhere(i: Instr, s: string)
    requires i.Include?
    ensures Width(i) == 0 && Piece(i, s) == Piece(i, "")
  {
    hide IncludeOf;
  }

  /** An include is sent behind all that was marked, if nothing marked verbatim waits to be emitted. */
  lemma ViewEmit(mk: Marks, i: Instr, body: string)
    requires Conserved(mk) && mk.cb_x <= |body| && i.Include? && (mk.o_wait == 0 || mk.last_mark == SKIP)
    ensures Conserved(EmitInstr(mk, i))
    ensures Span(Emitted(mk)) <= |body| && Span(Emitted(EmitInstr(mk, i))) <= |body|
    ensures View(EmitInstr(mk, i), body) == View(mk, body) + Piece(i, "")
  {
    hide Render, Span;
    EmitConserves(mk, i);
    WaitSpan(mk);
    RenderEmit(mk.code, mk.o_wait, i, body);
    EmitEmitted(mk, i);
  }

  lemma EmitEmitted(mk: Marks, i: Instr)
    requires Conserved(mk) && (mk.o_wait == 0 || mk.last_mark == SKIP)
    ensures Emitted(mk) == if mk.o_wait > 0 then mk.code + [Skip(mk.o_wait)] else mk.code
    ensures Emitted(EmitInstr(mk, i)) == if mk.o_wait > 0 then mk.code + [i] + [Skip(mk.o_wait)] else mk.code + [i]
  {
  }

  // ---- documents in the making ----

  /** `out` is what is sent of document `d`, read so far, if what is not marked yet is skipped; the first `n` bytes
      are marked. */
  ghost predicate Owes(mk: Marks, d: string, out: seq<Out>, n: nat) {
    && Conserved(mk) && Taken(mk) == |d| && mk.cb_x == n
    && Span(Emitted(mk)) <= |d| && View(mk, d) == out
  }

  /** `out` is what is sent of it as things stand: what is not marked yet is skipped in removed parts and sent
      elsewhere. */
  ghost predicate Shows(mk: Marks, d: string, out: seq<Out>, removed: bool) {
    && Conserved(mk) && Taken(mk) == |d| && Span(Emitted(mk)) <= |d| && mk.cb_x <= |d|
    && View(mk, d) + (if removed then [] else Bytes(d[mk.cb_x..])) == out
  }

  lemma OwesOn(mk: Marks, d: string, out: seq<Out>, n: nat, s: string)
    requires Owes(mk, d, out, n)
    ensures Owes(Advance(mk, |s|), d + s, out, n)
  {
    hide Render, Span, Emitted, Conserved;
    AdvanceIs(mk, |s|);
    RenderFront(Emitted(mk), d, s);
  }

  lemma AdvanceIs(mk: Marks, k: nat)
    ensures Emitted(Advance(mk, k)) == Emitted(mk) && (Conserved(mk) ==> Conserved(Advance(mk, k)))
  {
  }

  lemma ShowsOn(mk: Marks, d: string, out: seq<Out>, removed: bool, s: string)
    requires Shows(mk, d, out, removed)
    ensures Shows(Advance(mk, |s|), d + s, out + if removed then [] else Bytes(s), removed)
  {
    hide Render, Span, Emitted, Conserved, Bytes;
    AdvanceIs(mk, |s|);
    RenderFront(Emitted(mk), d, s);
    var tail := d[mk.cb_x..];
    assert (d + s)[mk.cb_x..] == tail + s;
    BytesJoined(tail, s);
    if !removed { Assoc(View(mk, d), Bytes(tail), Bytes(s)); }
  }

  /** Marking verbatim what is due verbatim, as before a tag. */
  lemma ShowsMarked(mk: Marks, d: string, out: seq<Out>)
    requires Shows(mk, d, out, false)
    ensures Shows(MarkCommon(mk, VERBATIM), d, out, false) && Owes(MarkCommon(mk, VERBATIM), d, out, |d|)
  {
    hide Render, Span, Emitted, MarkCommon, Bytes;
    ViewMark(mk, VERBATIM, d);
    assert d[mk.cb_x..mk.cb_x + Unmarked(mk)] == d[mk.cb_x..];
    AllSent(MarkCommon(mk, VERBATIM), VERBATIM, mk, d);
  }

  /** After a mark there is nothing left to send. */
  lemma AllSent(m: Marks, mark: Mark, mk: Marks, d: string)
    requires Conserved(mk) && m == MarkCommon(mk, mark)
    ensures Taken(m) == Taken(mk) && d[|d|..] == [] && Bytes([]) == [] && m.last_mark == mark
  {
    MarkCommonConserves(mk, mark);
  }

  /** In a removed part nothing more is sent, whatever is marked by and by. */
  lemma RemovedOwes(mk: Marks, d: string, out: seq<Out>)
    requires Shows(mk, d, out, true)
    ensures Owes(mk, d, out, mk.cb_x)
  {
    EmittedSpan(mk);
  }

  /** A tag that is skipped. */
  lemma OwesSkipped(mk: Marks, d: string, out: seq<Out>, n: nat)
    requires Owes(mk, d, out, n)
    ensures var m := MarkCommon(mk, SKIP); Owes(m, d, out, |d|) && Shows(m, d, out, false) && Shows(m, d, out, true)
    ensures MarkCommon(mk, SKIP).last_mark == SKIP
  {
    hide Render, Span, Emitted, MarkCommon, Bytes;
    EmittedSpan(mk);
    ViewMark(mk, SKIP, d);
    AllSent(MarkCommon(mk, SKIP), SKIP, mk, d);
  }

  /** And one that is an include. */
  lemma OwesIncluded(mk: Marks, d: string, out: seq<Out>, i: Instr)
    requires Owes(mk, d, out, |d|) && i.Include? && mk.last_mark == SKIP
    ensures Shows(EmitInstr(mk, i), d, out + Piece(i, ""), false)
  {
    hide Render, Span, Emitted, Bytes, Piece;
    ViewEmit(mk, i, d);
    assert d[|d|..] == [];
    NothingSent();
  }
}
