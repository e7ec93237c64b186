/** Feeding the ESI parser: one pass of its loop, whole pieces, and why the way a document is cut into
    pieces does not matter. */
module EsiParse {
  import opened Wrappers
  import opened Vct
  import opened EsiMarks
  import opened EsiStep

  datatype Vep = Vep(ctl: Ctl, mk: Marks)

  function Move(v: Vep, a: Act): Vep {
    Vep(a.ctl, Apply(v.mk, a))
  }

  function Init(url: string): Vep {
    Vep(
      Ctl(START, Flags(false, false, false, false, false, false, false, false, false), Cursor(NoText, 0), START,
          Cursor(NoText, 0), NoTable, "", Attrs(false, None, '\0', NoDo, None, url)),
      MarkCommon(Marks([], SKIP, 0, 0, 0, 0, 0), VERBATIM))
  }

  /** One pass of the outer loop of VEP_parse over the bytes left, and how many it takes. */
  function Iter(v: Vep, s: string): (r: (Vep, nat))
    requires s != []
    ensures r.1 <= |s|
    decreases |s|
  {
    if Loops(v.ctl, s[0]) then
      var v1 := Move(v, LoopAct(v.ctl, s[0]));
      if |s| == 1 then (Move(v1, EndAct(v1.ctl)), 1)
      else
        var (w, n) := Iter(v1, s[1..]);
        (w, n + 1)
    else
      var a := ExitAct(v.ctl, s);
      (Move(v, a), a.Eaten())
  }

  // ---- termination ----

  /** States are passed through at most once without taking a byte; where INTAG stands depends on the
      byte in front of it. */
  function Rank(c: Ctl, b: char): nat {
    if c.state == START then 20
    else if c.state == TESTXML then 19
    else if c.state == STARTTAG then 15
    else if c.state == ESITAG then 10
    else if Matching(c.state) then if c.match_tbl.EsiTable? then 9 else 5
    else if ESIREMOVE <= c.state <= ESIBOGON then 8
    else if c.state == INTAG then if IsXmlNameStart(b) then 7 else 1
    else if c.state == ATTR then 6
    else if c.state == CDATA || c.state == COMMENT then 5
    else if c.state == SKIPATTR then 4
    else if c.state == ATTRGETVAL then 3
    else if c.state == ATTRDELIM then 2
    else if c.state == ATTRVAL then 1
    else 0
  }

  lemma RankDrops(c: Ctl, s: string)
    requires s != [] && !Loops(c, s[0])
    requires ExitAct(c, s).Eaten() == 0 && !ExitAct(c, s).ctl.f.dead
    ensures Rank(ExitAct(c, s).ctl, s[0]) < Rank(c, s[0])
  {
    var b := s[0];
    if TextState(c.state) { TextRank(c, b, |s| == 1); }
    else if OpenState(c.state) { OpenRank(c, b); }
    else if AttrState(c.state) { AttrRank(c, b); }
    else if Matching(c.state) { MatchRank(c); }
  }

  lemma TextRank(c: Ctl, b: char, last: bool)
    requires TextState(c.state) && !Loops(c, b)
    ensures var a := ExitText(c, b, last); a.Eaten() == 0 ==> Rank(a.ctl, b) < Rank(c, b)
  {
  }

  lemma OpenRank(c: Ctl, b: char)
    requires OpenState(c.state)
    ensures var a := ExitOpen(c, b); a.Eaten() == 0 ==> Rank(a.ctl, b) < Rank(c, b)
  {
  }

  lemma AttrRank(c: Ctl, b: char)
    requires AttrState(c.state) && !Loops(c, b)
    ensures var a := ExitAttr(c, b); a.Eaten() == 0 && !a.ctl.f.dead ==> Rank(a.ctl, b) < Rank(c, b)
  {
  }

  lemma MatchRank(c: Ctl)
    requires Matching(c.state)
    ensures forall b :: Rank(Enter(c, Default(c.match_tbl)), b) < Rank(c, b)
  {
  }

  lemma {:induction false} IterProgress(v: Vep, s: string)
    requires s != []
    ensures var (w, n) := Iter(v, s); n > 0 || w.ctl.f.dead || Rank(w.ctl, s[0]) < Rank(v.ctl, s[0])
  {
    if !Loops(v.ctl, s[0]) {
      var a := ExitAct(v.ctl, s);
      if a.Eaten() == 0 && !a.ctl.f.dead { RankDrops(v.ctl, s); }
    }
  }

  /** The outer loop: it ends on every input, from every state. */
  function Loop(v: Vep, s: string): Vep
    decreases |s|, if s == [] then 0 else Rank(v.ctl, s[0])
  {
    if s == [] || v.ctl.f.dead then v
    else
      IterProgress(v, s);
      var (w, n) := Iter(v, s);
      if n == 0 && w.ctl.f.dead then w else Loop(w, s[n..])
  }

  /** Mark up what is left of the piece. */
  function EndPiece(v: Vep): Vep {
    if v.ctl.f.dead || v.mk.run == 0 then v
    else if v.ctl.f.in_esi_tag || v.ctl.f.remove then v.(mk := MarkCommon(v.mk, SKIP))
    else v.(mk := MarkPending(v.mk))
  }

  /** VEP_parse on one piece. */
  function Parse(v: Vep, s: string): Vep
    requires s != []
  {
    EndPiece(Loop(v, s))
  }

  /** VEP_Finish: the instructions, or nothing when the document has no ESI tag. */
  function Finish(v: Vep): Option<seq<Instr>> {
    var mk := if v.mk.o_pending > 0 then MarkCommon(v.mk, v.mk.last_mark) else v.mk;
    var code := if mk.o_wait > 0 then EmitCommon(mk.code, mk.cb_x - mk.o_last, mk.last_mark) else mk.code;
    if v.ctl.f.esi_found && |code| > 0 then Some(code) else None
  }

  predicate AllNonEmpty(pieces: seq<string>) {
    forall i :: 0 <= i < |pieces| ==> pieces[i] != []
  }

  /** Feeding a document in pieces. */
  function Feed(v: Vep, pieces: seq<string>): Vep
    requires AllNonEmpty(pieces)
    decreases |pieces|
  {
    if pieces == [] then v else Feed(Parse(v, pieces[0]), pieces[1..])
  }

  // ---- every move keeps the flags sane and fits the marks that are due ----

  /** A move from a state whose bytes are due to be marked one way marks that way, or leaves it so. */
  ghost predicate Fits(c: Ctl, a: Act) {
    FateOf(c) == Pending
    || (match a.mark
        case None => FateOf(a.ctl) == FateOf(c)
        case Some(m) => MarkOf(FateOf(c)) == m)
  }

  lemma LoopSane(c: Ctl, b: char)
    requires Sane(c) && Loops(c, b)
    ensures Sane(LoopAct(c, b).ctl)
    ensures LoopAct(c, b).emit.None? && (c.f.astray ==> LoopAct(c, b).ctl.f.astray)
  {
  }

  lemma LoopFits(c: Ctl, b: char)
    requires Sane(c) && Loops(c, b) && !LoopAct(c, b).ctl.f.astray
    ensures Fits(c, LoopAct(c, b))
  {
  }

  /** What holds of every move that leaves a state. */
  ghost predicate GoodExit(c: Ctl, a: Act) {
    !a.ctl.f.dead ==>
      && Sane(a.ctl)
      && (c.f.astray ==> a.ctl.f.astray)
      && (a.emit.Some? ==> a.mark == Some(SKIP))
      && (!a.ctl.f.astray ==> Fits(c, a))
  }

  lemma TextExit(c: Ctl, b: char, last: bool)
    requires Sane(c) && TextState(c.state) && !Loops(c, b)
    ensures GoodExit(c, ExitText(c, b, last))
  {
  }

  lemma OpenExit(c: Ctl, b: char)
    requires Sane(c) && OpenState(c.state) && !Loops(c, b)
    ensures GoodExit(c, ExitOpen(c, b))
  {
  }

  lemma AttrExit(c: Ctl, b: char)
    requires Sane(c) && AttrState(c.state) && !Loops(c, b)
    ensures GoodExit(c, ExitAttr(c, b))
  {
  }

  lemma InTagExit(c: Ctl, b: char)
    requires Sane(c) && c.state == INTAG
    ensures GoodExit(c, ExitInTag(c, b))
  {
    if b == '>' { DoTagKeeps(c); }
    hide DoTag;
  }

  /** What a tag does at its end leaves most fields alone. */
  ghost predicate Keeps(c: Ctl, d: Ctl) {
    && d.state == c.state && d.match_tbl == c.match_tbl && d.esicmt == c.esicmt && d.until == c.until
    && d.until_s == c.until_s && d.a.attr_delim == c.a.attr_delim
    && d.f.esi_found == c.f.esi_found && d.f.loose == c.f.loose && d.f.astray == c.f.astray
  }

  lemma DoTagKeeps(c: Ctl)
    ensures Keeps(c, DoTag(c).0)
  {
    hide IncludeOK, Keeps;
    KeepsFlags(c, c.f.(dead := true));
    KeepsFlags(c, c.f.(remove := !c.f.endtag));
    KeepsAttrs(c, c.a.(include_src := None));
    KeepsAttrs(c, c.a);
  }

  lemma KeepsFlags(c: Ctl, f: Flags)
    requires f.esi_found == c.f.esi_found && f.loose == c.f.loose && f.astray == c.f.astray
    ensures Keeps(c, c.(f := f))
  {
  }

  lemma KeepsAttrs(c: Ctl, a: Attrs)
    requires a.attr_delim == c.a.attr_delim
    ensures Keeps(c, c.(a := a)) && Keeps(c, c)
  {
  }

  lemma TagErrorExit(c: Ctl)
    requires Sane(c) && c.state == TAGERROR
    ensures GoodExit(c, ExitTagError(c))
  {
  }

  lemma MatchExit(c: Ctl, s: string)
    requires s != [] && Sane(c) && c.state == MATCH
    ensures GoodExit(c, ExitMatch(c, s))
  {
  }

  lemma MatchBufExit(c: Ctl, b: char)
    requires Sane(c) && c.state == MATCHBUF && !Loops(c, b)
    ensures GoodExit(c, ExitMatchBuf(c, b))
  {
  }

  lemma ExitGood(c: Ctl, s: string)
    requires s != [] && Sane(c) && !Loops(c, s[0])
    ensures GoodExit(c, ExitAct(c, s))
  {
    var b := s[0];
    if TextState(c.state) { TextExit(c, b, |s| == 1); }
    else if OpenState(c.state) { OpenExit(c, b); }
    else if AttrState(c.state) { AttrExit(c, b); }
    else {
      if c.state == INTAG { InTagExit(c, b); }
      else if c.state == TAGERROR { TagErrorExit(c); }
      else if c.state == MATCH { MatchExit(c, s); }
      else { MatchBufExit(c, b); }
    }
  }
}
