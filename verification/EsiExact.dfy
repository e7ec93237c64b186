/** Where the parser goes astray, the way a document is cut does matter: fed whole and fed byte by byte, it
    comes to different instructions. So `astray` marks exactly the documents that depend on how they are cut. */
module EsiExact {
  import opened Wrappers
  import opened Seqs
  import opened EsiMarks
  import opened EsiStep
  import opened EsiParse
  import opened EsiSplit
  import opened EsiWhole

  // ---- what becomes of each byte ----

  function Rep(n: nat, m: Mark): seq<Mark> { seq(n, _ => m) }

  /** How each storage byte is marked. */
  function Expand(code: seq<Instr>): seq<Mark> {
    if code == [] then []
    else
      Expand(code[..|code| - 1]) +
      match code[|code| - 1]
      case Verbatim(n) => Rep(n, VERBATIM)
      case Skip(n) => Rep(n, SKIP)
      case Include(_, _) => []
  }

  function Modes(mk: Marks): seq<Mark> { Expand(mk.code) + Rep(mk.o_wait, mk.last_mark) }

  function Unmarked(mk: Marks): nat { mk.o_pending + mk.run }

  lemma ExpandSnoc(code: seq<Instr>, i: Instr)
    ensures Expand(code + [i]) ==
      Expand(code) + match i case Verbatim(n) => Rep(n, VERBATIM) case Skip(n) => Rep(n, SKIP) case Include(_, _) => []
  {
    assert (code + [i])[..|code|] == code;
  }

  lemma RepJoin(m: nat, n: nat, mark: Mark)
    ensures Rep(m, mark) + Rep(n, mark) == Rep(m + n, mark)
  {
  }

  /** Once marked, a byte stays as it is. */
  lemma MarkAppends(mk: Marks, mark: Mark)
    requires Conserved(mk)
    ensures Conserved(MarkCommon(mk, mark)) && Unmarked(MarkCommon(mk, mark)) == 0
    ensures Modes(MarkCommon(mk, mark)) == Modes(mk) + Rep(Unmarked(mk), mark)
  {
    MarkCommonConserves(mk, mark);
    if mk.last_mark == mark {
      RepJoin(mk.o_wait, Unmarked(mk), mark);
    } else if mk.o_wait > 0 {
      ExpandSnoc(mk.code, if mk.last_mark == SKIP then Skip(mk.o_wait) else Verbatim(mk.o_wait));
    }
  }

  ghost predicate Grows(a: Marks, b: Marks) { Conserved(b) && Modes(a) <= Modes(b) }

  lemma ApplyGrows(mk: Marks, a: Act)
    requires Conserved(mk) && Emits(a)
    ensures Grows(mk, Apply(mk, a))
  {
    hide MarkCommon, Modes, Conserved, EmitInstr;
    var m1 := Advance(mk, a.pre);
    AdvanceGrows(mk, a.pre);
    if a.mark.Some? { MarkAppends(m1, a.mark.value); }
    var m2 := if a.mark.Some? then MarkCommon(m1, a.mark.value) else m1;
    var m3 := Advance(m2, a.post);
    AdvanceGrows(m2, a.post);
    if a.emit.Some? { EmitGrows(m3, a.emit.value); }
  }

  lemma AdvanceGrows(mk: Marks, k: nat)
    requires Conserved(mk)
    ensures Conserved(Advance(mk, k)) && Modes(Advance(mk, k)) == Modes(mk)
  {
  }

  lemma EmitGrows(mk: Marks, i: Instr)
    requires Conserved(mk) && i.Include?
    ensures Conserved(EmitInstr(mk, i)) && Modes(EmitInstr(mk, i)) == Modes(mk)
  {
    EmitConserves(mk, i);
    ExpandSnoc(mk.code, i);
  }

  lemma {:induction false} ByteGrows(v: Vep, b: char)
    requires Conserved(v.mk)
    ensures Grows(v.mk, Byte(v, b).mk)
    decreases Rank(v.ctl, b)
  {
    hide Modes, Conserved, Apply, LoopAct, ExitOne, Emits;
    if v.ctl.f.dead {
    } else if Loops(v.ctl, b) {
      LoopEmits(v.ctl, b);
      ApplyGrows(v.mk, LoopAct(v.ctl, b));
    } else {
      OneEmits(v.ctl, b);
      var a := ExitOne(v.ctl, b);
      ApplyGrows(v.mk, a);
      if a.Eaten() == 0 && !a.ctl.f.dead {
        ExitOneRank(v.ctl, b);
        ByteGrows(Move(v, a), b);
      }
    }
  }

  lemma OneEmits(c: Ctl, b: char)
    ensures Emits(ExitOne(c, b))
  {
    ExitEmits(c, [b]);
  }

  lemma {:induction false} BytesGrow(v: Vep, s: string)
    requires Conserved(v.mk)
    ensures Grows(v.mk, Bytes(v, s).mk)
    decreases |s|
  {
    hide Byte, Modes, Conserved;
    if s != [] {
      ByteGrows(v, s[0]);
      BytesGrow(Byte(v, s[0]), s[1..]);
    }
  }

  /** The end of a piece marks storage and unmarks none. */
  lemma EndGrows(w: Vep, l: Vep)
    requires Conserved(w.mk) && EndsAs(w, l)
    ensures Grows(w.mk, EndPiece(l).mk) && Unmarked(EndPiece(l).mk) <= Unmarked(w.mk)
  {
    MarkAppends(w.mk, VERBATIM);
    MarkAppends(l.mk, SKIP);
    hide MarkCommon;
  }

  lemma ParseGrows(v: Vep, s: string)
    requires s != [] && Conserved(v.mk) && (!v.ctl.f.dead ==> Sane(v.ctl) && Led(v))
    ensures Grows(v.mk, Parse(v, s).mk) && Grows(Bytes(v, s).mk, Parse(v, s).mk)
  {
    LoopIsBytes(v, s);
    BytesGrow(v, s);
    EndGrows(Bytes(v, s), Loop(v, s));
    hide Bytes, Loop, Modes, Conserved, Sane, Led, EndsAs, EndPiece;
    assert Parse(v, s) == EndPiece(Loop(v, s));
  }

  lemma {:induction false} FeedGrows(v: Vep, pieces: seq<string>)
    requires AllNonEmpty(pieces) && Between(v) && Conserved(v.mk)
    ensures Grows(v.mk, Feed(v, pieces).mk)
    decreases |pieces|
  {
    hide Parse, Modes, Conserved, Between, Sane, Led;
    if pieces != [] {
      BetweenMeans(v);
      ParseGrows(v, pieces[0]);
      ParseIsBytes(v, pieces[0]);
      FeedGrows(Parse(v, pieces[0]), pieces[1..]);
    }
  }

  // ---- a difference stays ----

  ghost predicate Differ(a: Marks, b: Marks) {
    exists i :: 0 <= i < |Modes(a)| && i < |Modes(b)| && Modes(a)[i] != Modes(b)[i]
  }

  lemma DifferStays(a: Marks, b: Marks, a': Marks, b': Marks)
    requires Differ(a, b) && Modes(a) <= Modes(a') && Modes(b) <= Modes(b')
    ensures Differ(a', b')
  {
    hide Modes;
    var i :| 0 <= i < |Modes(a)| && i < |Modes(b)| && Modes(a)[i] != Modes(b)[i];
    assert Modes(a')[i] == Modes(a)[i] && Modes(b')[i] == Modes(b)[i];
  }

  /** The instructions say how each byte was marked. */
  lemma FinishShows(v: Vep)
    requires Conserved(v.mk) && v.ctl.f.esi_found && Modes(v.mk) != []
    ensures Finish(v).Some? && Modes(v.mk) <= Expand(Finish(v).value)
  {
    hide MarkCommon, Modes, Conserved, Expand, Emitted;
    MarkAppends(v.mk, v.mk.last_mark);
    var mk := if v.mk.o_pending > 0 then MarkCommon(v.mk, v.mk.last_mark) else v.mk;
    EmittedShows(mk);
    FinishEmits(v);
    NothingShows();
    assert Modes(v.mk) <= Modes(mk);
  }

  lemma NothingShows()
    ensures Expand([]) == []
  {
  }

  /** All that was emitted, with what still waits. */
  function Emitted(mk: Marks): seq<Instr> {
    if mk.o_wait > 0 then EmitCommon(mk.code, mk.cb_x - mk.o_last, mk.last_mark) else mk.code
  }

  lemma FinishEmits(v: Vep)
    ensures var mk := if v.mk.o_pending > 0 then MarkCommon(v.mk, v.mk.last_mark) else v.mk;
      Finish(v) == if v.ctl.f.esi_found && Emitted(mk) != [] then Some(Emitted(mk)) else None
  {
    hide MarkCommon;
  }

  lemma EmittedShows(mk: Marks)
    requires Conserved(mk)
    ensures Modes(mk) == Expand(Emitted(mk))
  {
    if mk.o_wait > 0 {
      ExpandSnoc(mk.code, if mk.last_mark == SKIP then Skip(mk.o_wait) else Verbatim(mk.o_wait));
    }
  }

  lemma FinishDiffers(x: Vep, y: Vep)
    requires Conserved(x.mk) && Conserved(y.mk) && Differ(x.mk, y.mk)
    requires x.ctl.f.esi_found && y.ctl.f.esi_found
    ensures Finish(x) != Finish(y)
  {
    hide Finish, Modes, Conserved;
    var i :| 0 <= i < |Modes(x.mk)| && i < |Modes(y.mk)| && Modes(x.mk)[i] != Modes(y.mk)[i];
    FinishShows(x);
    FinishShows(y);
    assert Expand(Finish(x).value)[i] == Modes(x.mk)[i] && Expand(Finish(y).value)[i] == Modes(y.mk)[i];
  }

  // ---- inside a piece, the bytes of a tag are not marked yet ----

  predicate NeedsRun(c: Ctl) {
    || c.state == STARTTAG || c.state == COMMENT || c.state == CDATA || c.state == NOTMYTAG
    || (c.state == UNTIL && c.esicmt.p > 0) || (Matching(c.state) && c.match_tbl.StartTable?) || c.f.loose
  }

  ghost predicate Open(v: Vep) { NeedsRun(v.ctl) ==> v.mk.run > 0 }

  ghost predicate KeepsRun(c: Ctl, a: Act) {
    NeedsRun(a.ctl) ==> a.post > 0 || (a.mark.None? && (a.pre > 0 || NeedsRun(c)))
  }

  lemma MoveOpen(v: Vep, a: Act)
    requires Open(v) && KeepsRun(v.ctl, a)
    ensures Open(Move(v, a))
  {
  }

  lemma LoopOpen(c: Ctl, b: char)
    requires Sane(c) && Loops(c, b)
    ensures KeepsRun(c, LoopAct(c, b))
  {
  }

  lemma ExitOpens(c: Ctl, b: char)
    requires Sane(c) && !Loops(c, b)
    ensures !ExitOne(c, b).ctl.f.dead ==> KeepsRun(c, ExitOne(c, b))
  {
    if TextState(c.state) { TextOpens(c, b); }
    else if OpenState(c.state) { TagOpens(c, b); }
    else if AttrState(c.state) { AttrOpens(c, b); }
    else {
      if c.state == INTAG { InTagOpens(c, b); }
      else if c.state == TAGERROR { TagErrorOpens(c); }
      else if c.state == MATCH { MatchOpens(c, b); }
      else { MatchBufOpens(c, b); }
    }
  }

  lemma TextOpens(c: Ctl, b: char)
    requires Sane(c) && TextState(c.state) && !Loops(c, b)
    ensures KeepsRun(c, ExitText(c, b, false))
  {
  }

  lemma TagOpens(c: Ctl, b: char)
    requires Sane(c) && OpenState(c.state)
    ensures KeepsRun(c, ExitOpen(c, b))
  {
  }

  lemma AttrOpens(c: Ctl, b: char)
    requires Sane(c) && AttrState(c.state)
    ensures !ExitAttr(c, b).ctl.f.dead ==> KeepsRun(c, ExitAttr(c, b))
  {
  }

  lemma InTagOpens(c: Ctl, b: char)
    requires Sane(c) && c.state == INTAG
    ensures !ExitInTag(c, b).ctl.f.dead ==> KeepsRun(c, ExitInTag(c, b))
  {
    if b == '>' { DoTagKeeps(c); }
    hide DoTag;
  }

  lemma TagErrorOpens(c: Ctl)
    requires Sane(c) && c.state == TAGERROR
    ensures KeepsRun(c, ExitTagError(c))
  {
  }

  lemma MatchOpens(c: Ctl, b: char)
    requires Sane(c) && c.state == MATCH
    ensures KeepsRun(c, ExitMatch(c, [b]))
  {
  }

  lemma MatchBufOpens(c: Ctl, b: char)
    requires Sane(c) && c.state == MATCHBUF
    ensures KeepsRun(c, ExitMatchBuf(c, b))
  {
  }

  lemma {:induction false} ByteOpen(v: Vep, b: char)
    requires Sane(v.ctl) && Open(v)
    ensures !Byte(v, b).ctl.f.dead ==> Open(Byte(v, b))
    decreases Rank(v.ctl, b)
  {
    hide Open, Sane, KeepsRun, LoopAct, ExitOne;
    if v.ctl.f.dead {
    } else if Loops(v.ctl, b) {
      LoopOpen(v.ctl, b);
      MoveOpen(v, LoopAct(v.ctl, b));
    } else {
      var a := ExitOne(v.ctl, b);
      ExitOpens(v.ctl, b);
      if !a.ctl.f.dead {
        MoveOpen(v, a);
        GoodIsSane(v.ctl, b);
        if a.Eaten() == 0 {
          ExitOneRank(v.ctl, b);
          ByteOpen(Move(v, a), b);
        }
      }
    }
  }

  // ---- the document in one piece, and byte by byte ----

  /** `x` has been fed in one piece and `y` byte by byte, and nothing went astray. Where a tag interrupts the
      end of an ESI comment, `y` has marks that `x` has not. */
  ghost predicate Pair(x: Vep, y: Vep) {
    && !x.ctl.f.dead && !x.ctl.f.astray && Sane(x.ctl) && Sim(x, y)
    && Open(x) && Between(y) && Conserved(x.mk) && Conserved(y.mk)
    && (x.ctl.f.loose ==> Unmarked(y.mk) < Unmarked(x.mk))
  }

  lemma ByteBoth(x: Vep, y: Vep, b: char)
    requires Pair(x, y)
    ensures var x', y' := Byte(x, b), Parse(y, [b]);
      && Sim(x', y') && Between(y') && Conserved(x'.mk) && Conserved(y'.mk) && Modes(y.mk) <= Modes(y'.mk)
      && (!x'.ctl.f.dead ==> Sane(x'.ctl) && Open(x'))
  {
    hide Byte, Parse, Bytes, Sane, Open, Sim, Conserved, Modes, Led;
    SimMeans(x, y);
    BetweenMeans(y);
    ByteAlike(x, y, b);
    ParseIsBytes(y, [b]);
    OneByte(y, b);
    SimTrans(Parse(y, [b]), Byte(y, b), Byte(y, b)) by { SimSelf(Byte(y, b)); }
    SimTrans(Byte(x, b), Byte(y, b), Parse(y, [b]));
    ByteGrows(x, b);
    ParseGrows(y, [b]);
    ByteOpen(x, b);
  }

  lemma OneByte(v: Vep, b: char)
    ensures Bytes(v, [b]) == Byte(v, b)
  {
    assert [b][1..] == [];
    assert Bytes(Byte(v, b), []) == Byte(v, b);
  }

  /** Where a tag interrupts the end of an ESI comment, the last byte of the tag is marked in `y` alone. */
  lemma GapKept(x: Vep, y: Vep, b: char)
    requires Pair(x, y) && !Byte(x, b).ctl.f.dead && Byte(x, b).ctl.f.loose
    ensures Unmarked(Parse(y, [b]).mk) < Unmarked(Byte(x, b).mk)
  {
    ByteBoth(x, y, b);
    SimMeans(x, y);
    BetweenMeans(y);
    LoopLast(y, b);
    ByteGrows(y, b);
    var w, l := Byte(y, b), Loop(y, [b]);
    EndGrows(w, l);
    if x.ctl.f.loose {
      StaysLoose(x, b);
      StaysLoose(y, b);
    } else {
      ByteAlike(x, y, b);
      TightEnd(y, w, l);
    }
  }

  lemma StaysLoose(v: Vep, b: char)
    requires !v.ctl.f.dead && Sane(v.ctl) && v.ctl.f.loose && Byte(v, b).ctl.f.loose
    ensures Byte(v, b).mk == Advance(v.mk, 1)
  {
  }

  lemma TightEnd(v: Vep, w: Vep, l: Vep)
    requires EndOK(v, w, l) && EndsAs(w, l) && !w.ctl.f.dead && Sane(w.ctl) && w.ctl.f.loose && !v.ctl.f.loose
    ensures Unmarked(EndPiece(l).mk) == 0
  {
  }

  // ---- going astray ----

  /** The last byte of the end of an ESI comment, which a tag interrupted outside a removed part. */
  predicate EndsLoose(c: Ctl, b: char) {
    c.f.loose && b == At(c.esicmt.text, c.esicmt.p) && At(c.esicmt.text, c.esicmt.p + 1) == '\0'
  }

  /** The byte in a removed part that shows a comment to be no ESI comment. */
  predicate Comments(c: Ctl, b: char) {
    c.state == COMMENT && c.f.remove && b != At(ArmComment(c.esicmt).text, ArmComment(c.esicmt).p)
  }

  /** The parser goes astray at these two places and no other. */
  lemma AstrayExactly(v: Vep, b: char)
    requires Sane(v.ctl) && !v.ctl.f.dead && !v.ctl.f.astray
    ensures Byte(v, b).ctl.f.astray <==> EndsLoose(v.ctl, b) || Comments(v.ctl, b)
  {
    if Byte(v, b).ctl.f.astray { AstrayHow(v, b); }
    if EndsLoose(v.ctl, b) { LooseMove(v, b); }
    if Comments(v.ctl, b) { CommentMove(v, b); }
  }

  lemma {:induction false} AstrayHow(v: Vep, b: char)
    requires Sane(v.ctl) && !v.ctl.f.dead && !v.ctl.f.astray && Byte(v, b).ctl.f.astray
    ensures EndsLoose(v.ctl, b) || Comments(v.ctl, b)
    decreases Rank(v.ctl, b)
  {
    hide Sane, Loops, ExitOne, LoopAct;
    var c := v.ctl;
    if Loops(c, b) {
      LoopGoesAstray(c, b);
    } else {
      ExitGoesAstray(c, b);
      var a := ExitOne(c, b);
      if !a.ctl.f.astray {
        GoodIsSane(c, b);
        ExitOneRank(c, b);
        AstrayHow(Move(v, a), b);
      }
    }
  }

  lemma LoopGoesAstray(c: Ctl, b: char)
    requires !c.f.astray && Loops(c, b)
    ensures LoopAct(c, b).ctl.f.astray ==> EndsLoose(c, b)
  {
    hide LoopNextTag;
    if c.state == NEXTTAG { NextTagGoesAstray(c, b); }
  }

  lemma NextTagGoesAstray(c: Ctl, b: char)
    requires !c.f.astray
    ensures LoopNextTag(c, b).ctl.f.astray ==> EndsLoose(c, b)
  {
  }

  lemma ExitGoesAstray(c: Ctl, b: char)
    requires Sane(c) && !c.f.astray && !Loops(c, b)
    ensures ExitOne(c, b).ctl.f.astray ==> Comments(c, b)
    ensures ExitOne(c, b).Eaten() == 0 ==> ExitOne(c, b).ctl.state != COMMENT && !ExitOne(c, b).ctl.f.loose
  {
    if TextState(c.state) { TextGoesAstray(c, b); }
    else if OpenState(c.state) { OpenGoesAstray(c, b); }
    else if AttrState(c.state) { AttrGoesAstray(c, b); }
    else {
      if c.state == INTAG { InTagGoesAstray(c, b); }
      else if c.state == MATCH { MatchGoesAstray(c, b); }
      else if c.state == MATCHBUF { MatchBufGoesAstray(c, b); }
    }
  }

  lemma TextGoesAstray(c: Ctl, b: char)
    requires Sane(c) && TextState(c.state) && !c.f.astray && !Loops(c, b)
    ensures var a := ExitText(c, b, false);
      !a.ctl.f.astray && (a.Eaten() == 0 ==> a.ctl.state != COMMENT && !a.ctl.f.loose)
  {
  }

  lemma OpenGoesAstray(c: Ctl, b: char)
    requires Sane(c) && OpenState(c.state) && !c.f.astray && !Loops(c, b)
    ensures var a := ExitOpen(c, b);
      && (a.ctl.f.astray ==> Comments(c, b))
      && (a.Eaten() == 0 ==> a.ctl.state != COMMENT && !a.ctl.f.loose)
  {
  }

  lemma AttrGoesAstray(c: Ctl, b: char)
    requires Sane(c) && AttrState(c.state) && !c.f.astray && !Loops(c, b)
    ensures var a := ExitAttr(c, b);
      !a.ctl.f.astray && (a.Eaten() == 0 ==> a.ctl.state != COMMENT && !a.ctl.f.loose)
  {
  }

  lemma InTagGoesAstray(c: Ctl, b: char)
    requires Sane(c) && c.state == INTAG && !c.f.astray && !Loops(c, b)
    ensures var a := ExitInTag(c, b);
      !a.ctl.f.astray && (a.Eaten() == 0 ==> a.ctl.state != COMMENT && !a.ctl.f.loose)
  {
    if b == '>' { DoTagKeeps(c); }
    hide DoTag;
  }

  lemma MatchGoesAstray(c: Ctl, b: char)
    requires Sane(c) && c.state == MATCH && !c.f.astray
    ensures var a := ExitMatch(c, [b]);
      !a.ctl.f.astray && (a.Eaten() == 0 ==> a.ctl.state != COMMENT && !a.ctl.f.loose)
  {
  }

  lemma MatchBufGoesAstray(c: Ctl, b: char)
    requires Sane(c) && c.state == MATCHBUF && !c.f.astray
    ensures var a := ExitMatchBuf(c, b);
      !a.ctl.f.astray && (a.Eaten() == 0 ==> a.ctl.state != COMMENT && !a.ctl.f.loose)
  {
  }

  /** What is alike for a mark is marked that way where only one of the two has marked it. */
  lemma MarkedAhead(f: Fate, a: Marks, b: Marks)
    requires Conserved(a) && Conserved(b) && f != Pending && Alike(f, a, b) && Unmarked(b) < Unmarked(a)
    ensures |Modes(a)| < |Modes(b)| && Modes(b)[|Modes(a)|] == MarkOf(f)
  {
    MarkAppends(a, MarkOf(f));
    MarkAppends(b, MarkOf(f));
    hide MarkCommon, Modes, Conserved;
    var i := |Modes(a)|;
    assert (Modes(a) + Rep(Unmarked(a), MarkOf(f)))[i] == MarkOf(f);
    assert (Modes(b) + Rep(Unmarked(b), MarkOf(f)))[i] == Modes(b)[i];
  }

  lemma MarkedNow(mk: Marks, k: nat, mark: Mark)
    requires Conserved(mk) && Unmarked(mk) + k > 0
    ensures var m := MarkCommon(Advance(mk, k), mark);
      Conserved(m) && |Modes(mk)| < |Modes(m)| && Modes(m)[|Modes(mk)|] == mark
  {
    MarkAppends(Advance(mk, k), mark);
    hide MarkCommon;
    assert Modes(Advance(mk, k)) == Modes(mk);
    assert (Modes(mk) + Rep(Unmarked(mk) + k, mark))[|Modes(mk)|] == mark;
  }

  lemma LooseEvent(x: Vep, y: Vep, b: char)
    requires Pair(x, y) && EndsLoose(x.ctl, b)
    ensures Differ(Byte(x, b).mk, y.mk)
  {
    MarkedAhead(Verb, x.mk, y.mk);
    MarkedNow(x.mk, 1, SKIP);
    hide Modes, Conserved, MarkCommon;
    assert Byte(x, b).mk == MarkCommon(Advance(x.mk, 1), SKIP) by { LooseMove(x, b); }
  }

  lemma LooseMove(v: Vep, b: char)
    requires !v.ctl.f.dead && Sane(v.ctl) && EndsLoose(v.ctl, b)
    ensures Byte(v, b).ctl.f.astray && Byte(v, b).mk == MarkCommon(Advance(v.mk, 1), SKIP)
  {
    hide MarkCommon;
  }

  lemma CommentEvent(x: Vep, y: Vep, b: char)
    requires Pair(x, y) && Comments(x.ctl, b)
    ensures Differ(Byte(x, b).mk, y.mk)
  {
    MarkedAhead(Skipped, x.mk, y.mk);
    MarkedNow(x.mk, 0, VERBATIM);
    CommentMove(x, b);
    var x1 := Move(x, ExitOne(x.ctl, b));
    hide Modes, Conserved, MarkCommon, Byte, Loops, ExitOne;
    ByteGrows(x1, b);
    assert Modes(Byte(x1, b).mk)[|Modes(x.mk)|] == VERBATIM;
  }

  lemma CommentMove(v: Vep, b: char)
    requires !v.ctl.f.dead && Comments(v.ctl, b)
    ensures var v1 := Move(v, ExitOne(v.ctl, b));
      && v1.mk == MarkCommon(Advance(v.mk, 0), VERBATIM) && Byte(v, b) == Byte(v1, b)
      && Byte(v, b).ctl.f.astray
  {
    hide MarkCommon;
  }

  /** One more byte: unless it leads astray, the two go on side by side; and if it does, they differ for good. */
  lemma PairByte(x: Vep, y: Vep, b: char)
    requires Pair(x, y)
    ensures var x', y' := Byte(x, b), Parse(y, [b]);
      && x'.ctl == y'.ctl && Conserved(x'.mk) && Conserved(y'.mk) && Between(y')
      && (!x'.ctl.f.dead && !x'.ctl.f.astray ==> Pair(x', y'))
      && (!x'.ctl.f.dead && x'.ctl.f.astray ==> Differ(x'.mk, y'.mk))
  {
    ByteBoth(x, y, b);
    var x', y' := Byte(x, b), Parse(y, [b]);
    hide Byte, Parse, Sane, Between, Conserved, Modes, Open, Differ, Comments, EndsLoose;
    SimMeans(x', y');
    if !x'.ctl.f.dead && x'.ctl.f.loose { GapKept(x, y, b); }
    if !x'.ctl.f.dead && x'.ctl.f.astray {
      AstrayHow(x, b);
      if EndsLoose(x.ctl, b) { LooseEvent(x, y, b); } else { CommentEvent(x, y, b); }
      DifferStays(x'.mk, y.mk, x'.mk, y'.mk);
    }
  }

  /** A document byte by byte. */
  function Singles(s: string): seq<string> {
    if s == [] then [] else [[s[0]]] + Singles(s[1..])
  }

  lemma {:induction false} SinglesAre(s: string)
    ensures AllNonEmpty(Singles(s)) && Flat(Singles(s)) == s
  {
    if s != [] {
      SinglesAre(s[1..]);
      assert Singles(s)[1..] == Singles(s[1..]);
    }
  }

  lemma FeedFirst(v: Vep, b: char, s: string)
    ensures AllNonEmpty(Singles(s)) && AllNonEmpty(Singles([b] + s))
    ensures Feed(v, Singles([b] + s)) == Feed(Parse(v, [b]), Singles(s))
  {
    hide Parse;
    SinglesAre(s);
    SinglesAre([b] + s);
    var t := [b] + s;
    assert t[0] == b && t[1..] == s;
    assert Singles(t)[0] == [b] && Singles(t)[1..] == Singles(s);
  }

  lemma {:induction false} LoopGrows(v: Vep, s: string)
    requires Conserved(v.mk)
    ensures Grows(v.mk, Loop(v, s).mk)
    decreases |s|
  {
    hide Byte, Modes, Conserved, Loop, EndsAs;
    if s == [] {
      NothingLooped(v);
    } else {
      var b, rest := s[0], s[1..];
      assert s == [b] + rest;
      ByteGrows(v, b);
      if rest == [] {
        assert s == [b];
        LoopLast(v, b);
        LastGrows(Byte(v, b), Loop(v, s));
      } else {
        LoopByte(v, b, rest);
        LoopGrows(Byte(v, b), rest);
      }
    }
  }

  lemma NothingLooped(v: Vep)
    ensures Loop(v, []) == v
  {
  }

  lemma LastGrows(w: Vep, l: Vep)
    requires Conserved(w.mk) && EndsAs(w, l)
    ensures Grows(w.mk, l.mk)
  {
    MarkAppends(w.mk, VERBATIM);
    hide MarkCommon;
  }

  /** What was marked differently stays so to the end. */
  lemma AfterAstray(x: Vep, y: Vep, s: string)
    requires Differ(x.mk, y.mk) && Conserved(x.mk) && Conserved(y.mk) && Between(y)
    ensures AllNonEmpty(Singles(s))
    ensures Conserved(Loop(x, s).mk) && Differ(Loop(x, s).mk, Feed(y, Singles(s)).mk)
  {
    hide Loop, Feed, Conserved, Modes, Between, Differ;
    SinglesAre(s);
    LoopGrows(x, s);
    FeedGrows(y, Singles(s));
    DifferStays(x.mk, y.mk, Loop(x, s).mk, Feed(y, Singles(s)).mk);
  }

  lemma AtTheEnd(x: Vep, b: char, y: Vep)
    requires Conserved(Byte(x, b).mk)
    requires Byte(x, b).ctl.f.astray && !Byte(x, b).ctl.f.dead ==> Differ(Byte(x, b).mk, y.mk)
    ensures var l := Loop(x, [b]); l.ctl.f.astray && !l.ctl.f.dead ==> Conserved(l.mk) && Differ(l.mk, y.mk)
  {
    hide Loop, Byte, Conserved, Modes, Differ;
    LoopLast(x, b);
    LastGrows(Byte(x, b), Loop(x, [b]));
    if Byte(x, b).ctl.f.astray && !Byte(x, b).ctl.f.dead {
      DifferStays(Byte(x, b).mk, y.mk, Loop(x, [b]).mk, y.mk);
    }
  }

  /** Fed in one piece and byte by byte, a document that leads astray is marked in different ways. */
  lemma {:induction false} Diverge(x: Vep, y: Vep, s: string)
    requires s != [] && Pair(x, y)
    ensures AllNonEmpty(Singles(s))
    ensures var l := Loop(x, s);
      l.ctl.f.astray && !l.ctl.f.dead ==> Conserved(l.mk) && Differ(l.mk, Feed(y, Singles(s)).mk)
    decreases |s|
  {
    hide Loop, Byte, Parse, Pair, Conserved, Differ, Between;
    var b, rest := s[0], s[1..];
    assert s == [b] + rest;
    PairByte(x, y, b);
    FeedFirst(y, b, rest);
    var x', y' := Byte(x, b), Parse(y, [b]);
    if rest == [] {
      assert s == [b] && Singles(rest) == [];
      AtTheEnd(x, b, y');
    } else {
      LoopByte(x, b, rest);
      if x'.ctl.f.dead { LoopDead(x', rest); }
      else if x'.ctl.f.astray { AfterAstray(x', y', rest); }
      else { Diverge(x', y', rest); }
    }
  }

  lemma LoopDead(v: Vep, s: string)
    requires v.ctl.f.dead
    ensures Loop(v, s) == v
  {
  }

  lemma InitPair(url: string)
    ensures Pair(Init(url), Init(url))
  {
    hide Sim, Conserved, Between, MarkCommon;
    InitBetween(url);
    SimSelf(Init(url));
    InitAccounted(url);
    AccountedMeans(Init(url).mk, 0);
  }

  lemma AccountedMeans(mk: Marks, n: nat)
    requires Accounted(mk, n)
    ensures Conserved(mk)
  {
  }

  /** A document in one piece. */
  function Whole(url: string, doc: string): Vep
    requires doc != []
  {
    Parse(Init(url), doc)
  }

  /** A document that leads the parser astray comes out differently byte by byte. */
  lemma SplitDependence(url: string, doc: string)
    requires doc != [] && Whole(url, doc).ctl.f.astray && !Whole(url, doc).ctl.f.dead
    ensures AllNonEmpty(Singles(doc)) && Flat(Singles(doc)) == doc
    ensures Finish(Feed(Init(url), Singles(doc))) != Finish(Whole(url, doc))
  {
    hide Finish, Loop, Feed, Pair, Conserved, Differ, Modes, Grows, Led;
    var v := Init(url);
    SinglesAre(doc);
    InitPair(url);
    Diverge(v, v, doc);
    var l, cut := Loop(v, doc), Feed(v, Singles(doc));
    SplitIndependence(url, Singles(doc));
    CutIsSound(url, doc);
    EndGrows(l, l);
    GrowsMeans(l.mk, EndPiece(l).mk);
    DifferStays(l.mk, cut.mk, EndPiece(l).mk, cut.mk);
    FinishDiffers(EndPiece(l), cut);
  }

  lemma GrowsMeans(a: Marks, b: Marks)
    requires Grows(a, b)
    ensures Conserved(b) && Modes(a) <= Modes(b)
  {
  }

  lemma CutIsSound(url: string, doc: string)
    requires doc != []
    ensures AllNonEmpty(Singles(doc))
    ensures var cut := Feed(Init(url), Singles(doc)); Between(cut) && Conserved(cut.mk)
  {
    hide Feed, Bytes;
    SinglesAre(doc);
    InitPair(url);
    FeedIsBytes(Init(url), Singles(doc));
    FeedGrows(Init(url), Singles(doc));
  }

  /** For every document on which no assertion fails: all ways of cutting it give the same instructions if and
      only if it does not lead the parser astray, that is, has no comment in a removed part and no tag in the
      middle of the end of an ESI comment. */
  lemma CutsAgreeExactly(url: string, doc: string)
    requires doc != [] && !Whole(url, doc).ctl.f.dead
    ensures (forall pieces :: AllNonEmpty(pieces) && Flat(pieces) == doc ==>
               Finish(Feed(Init(url), pieces)) == Finish(Whole(url, doc)))
      <==> !Whole(url, doc).ctl.f.astray
  {
    hide Finish, Feed;
    if Whole(url, doc).ctl.f.astray {
      SplitDependence(url, doc);
    } else {
      forall pieces | AllNonEmpty(pieces) && Flat(pieces) == doc
        ensures Finish(Feed(Init(url), pieces)) == Finish(Whole(url, doc))
      {
        assert pieces != [];
        SplitIndependence(url, pieces);
      }
    }
  }
}
