/** No byte of a document is lost or invented between the parser and the deliverer. */
module EsiWhole {
  import opened Wrappers
  import opened Seqs
  import opened Endian
  import opened EsiMarks
  import opened EsiStep
  import opened EsiParse
  import opened EsiCode
  import opened EsiDeliver

  /** Nothing of length zero is emitted. */
  ghost predicate Positive(code: seq<Instr>) {
    forall i :: 0 <= i < |code| ==> code[i].Include? || Width(code[i]) > 0
  }

  /** What every move keeps of the marks, and how many bytes are accounted for. */
  ghost predicate Accounted(mk: Marks, n: nat) {
    Conserved(mk) && Positive(mk.code) && Taken(mk) == n
  }

  lemma MarkAccounted(mk: Marks, mark: Mark, n: nat)
    requires Accounted(mk, n)
    ensures Accounted(MarkCommon(mk, mark), n)
    ensures MarkCommon(mk, mark).run == 0
  {
    MarkCommonConserves(mk, mark);
  }

  ghost predicate Emits(a: Act) {
    a.emit.Some? ==> a.emit.value.Include?
  }

  lemma ApplyAccounted(mk: Marks, a: Act, n: nat)
    requires Accounted(mk, n) && Emits(a)
    ensures Accounted(Apply(mk, a), n + a.Eaten())
  {
    var m1 := Advance(mk, a.pre);
    if a.mark.Some? { MarkAccounted(m1, a.mark.value, n + a.pre); }
    var m2 := if a.mark.Some? then MarkCommon(m1, a.mark.value) else m1;
    var m3 := Advance(m2, a.post);
    if a.emit.Some? { EmitConserves(m3, a.emit.value); }
  }

  lemma ExitEmits(c: Ctl, s: string)
    requires s != []
    ensures Emits(ExitAct(c, s))
  {
    if OpenState(c.state) { OpenEmits(c, s[0]); }
    else if AttrState(c.state) { AttrEmits(c, s[0]); }
  }

  lemma OpenEmits(c: Ctl, b: char)
    ensures Emits(ExitOpen(c, b))
  {
  }

  lemma AttrEmits(c: Ctl, b: char)
    ensures Emits(ExitAttr(c, b))
  {
  }

  lemma LoopEmits(c: Ctl, b: char)
    ensures Emits(LoopAct(c, b))
  {
  }

  lemma {:induction false} IterAccounted(v: Vep, s: string, n: nat)
    requires s != [] && Accounted(v.mk, n)
    ensures var (w, k) := Iter(v, s); Accounted(w.mk, n + k)
    decreases |s|
  {
    if Loops(v.ctl, s[0]) {
      var a := LoopAct(v.ctl, s[0]);
      LoopEmits(v.ctl, s[0]);
      ApplyAccounted(v.mk, a, n);
      if |s| == 1 {
        ApplyAccounted(Apply(v.mk, a), EndAct(a.ctl), n + 1);
      } else {
        IterAccounted(Move(v, a), s[1..], n + 1);
      }
    } else {
      ExitEmits(v.ctl, s);
      ApplyAccounted(v.mk, ExitAct(v.ctl, s), n);
    }
  }

  lemma {:induction false} LoopAccounted(v: Vep, s: string, n: nat)
    requires Accounted(v.mk, n)
    ensures !Loop(v, s).ctl.f.dead ==> Accounted(Loop(v, s).mk, n + |s|)
    decreases |s|, if s == [] then 0 else Rank(v.ctl, s[0])
  {
    if s != [] && !v.ctl.f.dead {
      IterProgress(v, s);
      IterAccounted(v, s, n);
      var (w, k) := Iter(v, s);
      if !(k == 0 && w.ctl.f.dead) { LoopAccounted(w, s[k..], n + k); }
    }
  }

  /** One piece: every byte of it is accounted for, and none is left unmarked. */
  lemma ParseAccounted(v: Vep, s: string, n: nat)
    requires s != [] && Accounted(v.mk, n)
    ensures !Parse(v, s).ctl.f.dead ==> Accounted(Parse(v, s).mk, n + |s|) && Parse(v, s).mk.run == 0
  {
    LoopAccounted(v, s, n);
    var w := Loop(v, s);
    if !w.ctl.f.dead { MarkAccounted(w.mk, SKIP, n + |s|); }
  }

  lemma {:induction false} FeedAccounted(v: Vep, pieces: seq<string>, n: nat)
    requires AllNonEmpty(pieces) && Accounted(v.mk, n) && v.mk.run == 0
    ensures !Feed(v, pieces).ctl.f.dead ==>
      Accounted(Feed(v, pieces).mk, n + |Flat(pieces)|) && Feed(v, pieces).mk.run == 0
    decreases |pieces|
  {
    if pieces != [] {
      ParseAccounted(v, pieces[0], n);
      var w := Parse(v, pieces[0]);
      if w.ctl.f.dead {
        DeadStays(w, pieces[1..]);
      } else {
        FeedAccounted(w, pieces[1..], n + |pieces[0]|);
      }
    }
  }

  lemma {:induction false} DeadStays(v: Vep, pieces: seq<string>)
    requires AllNonEmpty(pieces) && v.ctl.f.dead
    ensures Feed(v, pieces).ctl.f.dead
    decreases |pieces|
  {
    if pieces != [] { DeadStays(Parse(v, pieces[0]), pieces[1..]); }
  }

  /** Counting instructions from the front or from the back gives the same. */
  lemma {:induction false} SpanIsTotal(code: seq<Instr>)
    ensures Span(code) == Total(code)
  {
    if code != [] {
      var init, last := code[..|code| - 1], code[|code| - 1];
      assert code == init + [last];
      SpanIsTotal(init);
      SpanConcat(init, [last]);
    }
  }

  lemma {:induction false} SpanConcat(a: seq<Instr>, b: seq<Instr>)
    ensures Span(a + b) == Span(a) + Span(b)
  {
    if a == [] {
      assert a + b == b;
    } else {
      assert (a + b)[1..] == a[1..] + b;
      SpanConcat(a[1..], b);
    }
  }

  lemma FinishAccounted(v: Vep, n: nat)
    requires Accounted(v.mk, n) && v.mk.run == 0
    ensures Finish(v).Some? ==> Span(Finish(v).value) == n && Positive(Finish(v).value)
  {
    if v.mk.o_pending > 0 {
      MarkAccounted(v.mk, v.mk.last_mark, n);
      MarkCommonConserves(v.mk, v.mk.last_mark);
    }
    var mk := if v.mk.o_pending > 0 then MarkCommon(v.mk, v.mk.last_mark) else v.mk;
    hide MarkCommon;
    WaitAccounted(mk, n);
  }

  /** What is still waited for is emitted at the end. */
  lemma WaitAccounted(mk: Marks, n: nat)
    requires Accounted(mk, n) && mk.run == 0 && mk.o_pending == 0
    ensures var code := if mk.o_wait > 0 then EmitCommon(mk.code, mk.cb_x - mk.o_last, mk.last_mark) else mk.code;
      Span(code) == n && Positive(code)
  {
    var code := if mk.o_wait > 0 then EmitCommon(mk.code, mk.cb_x - mk.o_last, mk.last_mark) else mk.code;
    assert code != mk.code ==> code[..|code| - 1] == mk.code;
    SpanIsTotal(code);
  }

  lemma InitAccounted(url: string)
    ensures Accounted(Init(url).mk, 0) && Init(url).mk.run == 0
  {
    MarkAccounted(Marks([], SKIP, 0, 0, 0, 0, 0), VERBATIM, 0);
  }

  lemma ConservationFrom(v: Vep, pieces: seq<string>)
    requires AllNonEmpty(pieces) && Accounted(v.mk, 0) && v.mk.run == 0
    ensures var w := Feed(v, pieces);
      !w.ctl.f.dead && Finish(w).Some? ==>
        Span(Finish(w).value) == |Flat(pieces)| && Positive(Finish(w).value)
  {
    FeedAccounted(v, pieces, 0);
    var w := Feed(v, pieces);
    if !w.ctl.f.dead { FinishAccounted(w, |Flat(pieces)|); }
  }

  /** The instructions for a document, comments or not, account for exactly its bytes. */
  lemma Conservation(url: string, pieces: seq<string>)
    requires AllNonEmpty(pieces)
    ensures var v := Feed(Init(url), pieces);
      !v.ctl.f.dead && Finish(v).Some? ==>
        Span(Finish(v).value) == |Flat(pieces)| && Positive(Finish(v).value)
  {
    InitAccounted(url);
    ConservationFrom(Init(url), pieces);
  }

  lemma WidthWithin(code: seq<Instr>, i: nat)
    requires i < |code|
    ensures Width(code[i]) <= Span(code)
  {
    if i > 0 { WidthWithin(code[1..], i - 1); }
  }

  /** A document that went through the parser in any pieces is delivered from storage cut in any other
      way: what its instructions mean is sent, and the whole body is used up. */
  method DeliverParsed(url: string, ghost pieces: seq<string>, store: seq<string>, codes: string,
                       ghost code: seq<Instr>)
    returns (out: seq<Out>, ghost left: string)
    requires AllNonEmpty(pieces) && !Feed(Init(url), pieces).ctl.f.dead
    requires Finish(Feed(Init(url), pieces)) == Some(code) && codes == EncodeAll(code)
    requires Flat(store) == Flat(pieces) && |Flat(pieces)| <= SSIZE_MAX
    ensures Span(code) == |Flat(store)|
    ensures out == Render(code, Flat(pieces)) && left == []
  {
    Conservation(url, pieces);
    forall i | 0 <= i < |code| ensures !code[i].Include? ==> 0 < Width(code[i]) <= SSIZE_MAX {
      WidthWithin(code, i);
    }
    out, left := Deliver(codes, store, code);
  }
}
