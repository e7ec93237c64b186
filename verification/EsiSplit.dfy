/** The way a document is cut into pieces does not matter, unless its comments lead it astray: parsing in
    pieces is compared with a parser that takes one byte after another and has no pieces. */
module EsiSplit {
  import opened Wrappers
  import opened Vct
  import opened Seqs
  import opened EsiMarks
  import opened EsiStep
  import opened EsiParse

  // ---- one byte at a time ----

  /** The move out of a state at byte `b`, with more to come. */
  function ExitOne(c: Ctl, b: char): Act {
    if TextState(c.state) then ExitText(c, b, false) else ExitAct(c, [b])
  }

  lemma ExitOneRank(c: Ctl, b: char)
    requires !Loops(c, b) && ExitOne(c, b).Eaten() == 0 && !ExitOne(c, b).ctl.f.dead
    ensures Rank(ExitOne(c, b).ctl, b) < Rank(c, b)
  {
    if TextState(c.state) { TextRank(c, b, false); } else { RankDrops(c, [b]); }
  }

  /** All moves up to and with the one that takes byte `b`. */
  function Byte(v: Vep, b: char): Vep
    decreases Rank(v.ctl, b)
  {
    if v.ctl.f.dead then v
    else if Loops(v.ctl, b) then Move(v, LoopAct(v.ctl, b))
    else
      var a := ExitOne(v.ctl, b);
      if a.Eaten() == 0 && !a.ctl.f.dead then
        ExitOneRank(v.ctl, b);
        Byte(Move(v, a), b)
      else Move(v, a)
  }

  function Bytes(v: Vep, s: string): Vep
    decreases |s|
  {
    if s == [] then v else Bytes(Byte(v, s[0]), s[1..])
  }

  lemma {:induction false} BytesJoin(v: Vep, a: string, b: string)
    ensures Bytes(v, a + b) == Bytes(Bytes(v, a), b)
    decreases |a|
  {
    hide Byte;
    if a == [] { assert a + b == b; } else {
      assert (a + b)[0] == a[0] && (a + b)[1..] == a[1..] + b;
      BytesJoin(Byte(v, a[0]), a[1..], b);
    }
  }

  // ---- a byte of a piece ----

  lemma LoopKeepsAlive(c: Ctl, b: char)
    ensures LoopAct(c, b).ctl.f.dead == c.f.dead
  {
    if c.state == NEXTTAG { NextTagKeepsAlive(c, b); }
  }

  lemma NextTagKeepsAlive(c: Ctl, b: char)
    ensures LoopNextTag(c, b).ctl.f.dead == c.f.dead
  {
  }

  /** A byte taken by a loop can be taken first. */
  lemma Unroll(v: Vep, b: char, s: string)
    requires Loops(v.ctl, b) && s != [] && !v.ctl.f.dead
    ensures Loop(v, [b] + s) == Loop(Move(v, LoopAct(v.ctl, b)), s)
  {
    LoopKeepsAlive(v.ctl, b);
    var v1 := Move(v, LoopAct(v.ctl, b));
    var (w, n) := Iter(v1, s);
    IterUnroll(v, b, s);
    IterProgress(v1, s);
    assert ([b] + s)[n + 1..] == s[n..];
    assert Loop(v, [b] + s) == Loop(w, s[n..]);
  }

  lemma IterUnroll(v: Vep, b: char, s: string)
    requires Loops(v.ctl, b) && s != []
    ensures var (w, n) := Iter(Move(v, LoopAct(v.ctl, b)), s); Iter(v, [b] + s) == (w, n + 1)
  {
    assert ([b] + s)[0] == b && ([b] + s)[1..] == s;
  }

  lemma UnrollLast(v: Vep, b: char)
    requires Loops(v.ctl, b) && !v.ctl.f.dead
    ensures Loop(v, [b]) == Move(Move(v, LoopAct(v.ctl, b)), EndAct(LoopAct(v.ctl, b).ctl))
  {
  }

  lemma ZeroMove(v: Vep, s: string)
    requires s != [] && !Loops(v.ctl, s[0]) && !v.ctl.f.dead && ExitAct(v.ctl, s).Eaten() == 0
    ensures Loop(v, s) == Loop(Move(v, ExitAct(v.ctl, s)), s)
  {
    IterProgress(v, s);
    assert s[0..] == s;
  }

  lemma OneMove(v: Vep, b: char, s: string)
    requires !Loops(v.ctl, b) && !v.ctl.f.dead && ExitAct(v.ctl, [b] + s).Eaten() == 1
    ensures Loop(v, [b] + s) == Loop(Move(v, ExitAct(v.ctl, [b] + s)), s)
  {
    var t := [b] + s;
    assert t[1..] == s;
    assert Iter(v, t) == (Move(v, ExitAct(v.ctl, t)), 1);
  }

  /** Apart from lookahead, leaving a state depends on the next byte alone, but for the marks made when
      the piece ends there. */
  lemma SameExit(c: Ctl, b: char, s: string)
    requires s != [] && !Loops(c, b) && !(c.state == MATCH && MatchTable(c.match_tbl, [b]).More?)
    ensures ExitAct(c, [b] + s) == ExitOne(c, b) && ExitOne(c, b).Eaten() <= 1
  {
    assert ([b] + s)[0] == b;
    if c.state == MATCH {
      ShortMatch(c.match_tbl, b);
      MissStays(c.match_tbl, [b], s);
    }
  }

  /** Inside a piece, a byte can be taken first. */
  lemma {:induction false} LoopByte(v: Vep, b: char, s: string)
    requires s != []
    ensures Loop(v, [b] + s) == Loop(Byte(v, b), s)
    decreases Rank(v.ctl, b)
  {
    hide Iter, ExitAct;
    if v.ctl.f.dead {
    } else if Loops(v.ctl, b) {
      Unroll(v, b, s);
    } else if v.ctl.state == MATCH && MatchTable(v.ctl.match_tbl, [b]).More? {
      MatchCut(v, [b], s);
      PutAside(v, b);
    } else {
      SameExit(v.ctl, b, s);
      var a := ExitOne(v.ctl, b);
      if a.Eaten() == 0 {
        ZeroMove(v, [b] + s);
        if !a.ctl.f.dead {
          ExitOneRank(v.ctl, b);
          LoopByte(Move(v, a), b, s);
        }
      } else {
        OneMove(v, b, s);
      }
    }
  }

  lemma PutAside(v: Vep, b: char)
    requires Unfinished(v, [b])
    ensures Byte(v, b) == Buffered(v, [b])
  {
  }

  function Marked(v: Vep): Vep { v.(mk := MarkCommon(v.mk, VERBATIM)) }

  /** The last byte of a piece: it is taken as any other, and then storage may be marked verbatim. */
  ghost predicate EndsAs(w: Vep, l: Vep) { l == w || l == Marked(w) }

  lemma {:induction false} LoopLast(v: Vep, b: char)
    ensures EndsAs(Byte(v, b), Loop(v, [b]))
    ensures Sane(v.ctl) && !Byte(v, b).ctl.f.dead ==> EndOK(v, Byte(v, b), Loop(v, [b]))
    decreases Rank(v.ctl, b)
  {
    hide Iter, ExitAct, Sane;
    if v.ctl.f.dead {
    } else if Loops(v.ctl, b) {
      UnrollLast(v, b);
      LastLoops(v, b);
    } else if v.ctl.state == MATCH && MatchTable(v.ctl.match_tbl, [b]).More? {
      BufferAll(v, [b]);
      PutAside(v, b);
      AsideIsPending(v, b);
    } else {
      LastExit(v.ctl, b);
      var a, a1 := ExitOne(v.ctl, b), ExitAct(v.ctl, [b]);
      if a.Eaten() == 0 {
        ZeroMove(v, [b]);
        if !a.ctl.f.dead {
          ExitOneRank(v.ctl, b);
          LoopLast(Move(v, a), b);
          if Sane(v.ctl) {
            GoodIsSane(v.ctl, b);
            StaysTight(v.ctl, b);
          }
        }
      } else {
        assert [b] + [] == [b];
        OneMove(v, b, []);
        LastMove(v, b);
      }
    }
  }

  /** At the end of a piece, what is due verbatim is marked, unless it is loose since before; and where nothing
      runs, nothing is pending. `v` and `w` are the parser before and after the last byte, `l` is at the end. */
  ghost predicate EndOK(v: Vep, w: Vep, l: Vep) {
    && (l != w ==> FateOf(w.ctl) == Verb)
    && (FateOf(w.ctl) == Verb && !(v.ctl.f.loose && w.ctl.f.loose) ==> l.mk.run == 0 && l.mk.o_pending == 0)
    && (w.mk.run == 0 ==> w.mk.o_pending == 0)
  }

  lemma LastLoops(v: Vep, b: char)
    requires Loops(v.ctl, b) && !v.ctl.f.dead
    ensures var w := Move(v, LoopAct(v.ctl, b));
      && EndsAs(w, Move(w, EndAct(w.ctl)))
      && (Sane(v.ctl) ==> EndOK(v, w, Move(w, EndAct(w.ctl))))
  {
    if Sane(v.ctl) { LoopSane(v.ctl, b); }
  }

  lemma AsideIsPending(v: Vep, b: char)
    requires Unfinished(v, [b])
    ensures Sane(v.ctl) ==> EndOK(v, Buffered(v, [b]), Buffered(v, [b]))
  {
    UnfinishedKeyword(v.ctl.match_tbl, [b]);
  }

  lemma LastExit(c: Ctl, b: char)
    requires !Loops(c, b) && !(c.state == MATCH && MatchTable(c.match_tbl, [b]).More?)
    ensures var a, a1 := ExitOne(c, b), ExitAct(c, [b]);
      && a.Eaten() == a1.Eaten() <= 1 && (a.Eaten() == 0 ==> a == a1)
      && (a == a1 || (a1 == a.(mark := Some(VERBATIM)) && a.mark.None? && a.pre == 1 && a.post == 0 && a.emit.None?))
      && (a != a1 && Sane(c) ==> FateOf(a.ctl) == Verb)
  {
    if c.state == MATCH { ShortMatch(c.match_tbl, b); }
  }

  /** No move that takes no byte starts or ends at NEXTTAG. */
  lemma StaysTight(c: Ctl, b: char)
    requires !Loops(c, b) && ExitOne(c, b).Eaten() == 0 && Sane(c) && Sane(ExitOne(c, b).ctl)
    ensures !c.f.loose && !ExitOne(c, b).ctl.f.loose
  {
    if OpenState(c.state) { OpenTight(c, b); }
    hide ExitOpen, Sane;
    LooseAtNextTag(c);
    LooseAtNextTag(ExitOne(c, b).ctl);
  }

  lemma LooseAtNextTag(c: Ctl)
    requires Sane(c)
    ensures c.f.loose ==> c.state == NEXTTAG
  {
  }

  lemma OpenTight(c: Ctl, b: char)
    requires OpenState(c.state) && ExitOpen(c, b).Eaten() == 0
    ensures ExitOpen(c, b).ctl.state != NEXTTAG
  {
  }

  lemma LastMove(v: Vep, b: char)
    requires !Loops(v.ctl, b) && !v.ctl.f.dead && ExitOne(v.ctl, b).Eaten() == 1
    requires !(v.ctl.state == MATCH && MatchTable(v.ctl.match_tbl, [b]).More?)
    ensures var w, l := Move(v, ExitOne(v.ctl, b)), Move(v, ExitAct(v.ctl, [b]));
      && EndsAs(w, l) && (Sane(v.ctl) && !w.ctl.f.dead ==> EndOK(v, w, l))
  {
    LastExit(v.ctl, b);
    if Sane(v.ctl) { ExitMarks(v.ctl, b); }
    hide ExitOne, ExitAct, Sane, FateOf, MatchTable;
  }

  /** A move that takes the last byte of a piece and leaves it due verbatim marks it. */
  ghost predicate MarksLast(a: Act) {
    !a.ctl.f.dead && FateOf(a.ctl) == Verb ==> a.mark.Some? && a.post == 0
  }

  lemma ExitMarks(c: Ctl, b: char)
    requires Sane(c) && !Loops(c, b) && ExitAct(c, [b]).Eaten() == 1
    ensures MarksLast(ExitAct(c, [b]))
  {
    if TextState(c.state) { TextMarks(c, b); }
    else if OpenState(c.state) { OpenMarks(c, b); }
    else if AttrState(c.state) { AttrMarks(c, b); }
    else if c.state == INTAG { InTagMarks(c, b); }
    else if c.state == MATCH { MatchMarks(c, b); }
    else if c.state == MATCHBUF { MatchBufMarks(c, b); }
  }

  lemma TextMarks(c: Ctl, b: char)
    requires Sane(c) && TextState(c.state) && !Loops(c, b) && ExitText(c, b, true).Eaten() == 1
    ensures MarksLast(ExitText(c, b, true))
  {
  }

  lemma OpenMarks(c: Ctl, b: char)
    requires Sane(c) && OpenState(c.state) && ExitOpen(c, b).Eaten() == 1
    ensures MarksLast(ExitOpen(c, b))
  {
  }

  lemma AttrMarks(c: Ctl, b: char)
    requires Sane(c) && AttrState(c.state)
    ensures MarksLast(ExitAttr(c, b))
  {
  }

  lemma InTagMarks(c: Ctl, b: char)
    requires Sane(c) && c.state == INTAG && ExitInTag(c, b).Eaten() == 1
    ensures MarksLast(ExitInTag(c, b))
  {
  }

  lemma MatchMarks(c: Ctl, b: char)
    requires Sane(c) && c.state == MATCH && ExitMatch(c, [b]).Eaten() == 1
    ensures MarksLast(ExitMatch(c, [b]))
  {
    ShortMatch(c.match_tbl, b);
  }

  lemma MatchBufMarks(c: Ctl, b: char)
    requires Sane(c) && c.state == MATCHBUF && ExitMatchBuf(c, b).Eaten() == 1
    ensures MarksLast(ExitMatchBuf(c, b))
  {
  }

  // ---- keywords split over pieces ----

  lemma ShortMatch(t: Table, b: char)
    ensures !MatchTable(t, [b]).Hit?
  {
  }

  /** A text that neither is a prefix of `u` nor has it as a prefix differs from it at some place. */
  lemma Mismatch(text: string, u: string, s: string)
    requires !(text <= u) && !(u <= text)
    ensures !(text <= u + s) && !(u + s <= text)
  {
    var k := if |text| < |u| then |text| else |u|;
    assert text == text[..|text|] && u == u[..|u|];
    assert text[..k] != u[..k];
    var i :| 0 <= i < k && text[i] != u[i];
    assert (u + s)[i] == u[i];
  }

  lemma MissStays(t: Table, u: string, s: string)
    requires MatchTable(t, u).Miss?
    ensures MatchTable(t, u + s).Miss?
  {
    match t
    case NoTable =>
    case StartTable =>
      Mismatch("!--", u, s);
      Mismatch("esi:", u, s);
      Mismatch("![CDATA[", u, s);
    case EsiTable =>
      Mismatch("include", u, s);
      Mismatch("remove", u, s);
      Mismatch("comment", u, s);
    case IncludeTable => Mismatch("src=", u, s);
  }

  /** When a keyword completes, it does so with the byte just added, and what follows changes
      nothing. */
  lemma HitStays(t: Table, u: string, x: char, s: string)
    requires MatchTable(t, u).More? && MatchTable(t, u + [x]).Hit?
    ensures MatchTable(t, u + [x]).len == |u| + 1
    ensures MatchTable(t, u + [x] + s) == MatchTable(t, u + [x])
  {
    var w := u + [x];
    match t
    case NoTable =>
    case StartTable =>
      HitOne("!--", u, x, s);
      HitOne("esi:", u, x, s);
      HitOne("![CDATA[", u, x, s);
    case EsiTable =>
      HitOne("include", u, x, s);
      HitOne("remove", u, x, s);
      HitOne("comment", u, x, s);
    case IncludeTable => HitOne("src=", u, x, s);
  }

  lemma HitOne(text: string, u: string, x: char, s: string)
    requires text != ""
    ensures text <= u + [x] && !(text <= u) ==> |text| == |u| + 1
    ensures text <= u + [x] ==> text <= u + [x] + s
    ensures !(text <= u + [x]) && !(u + [x] <= text)
      ==> !(text <= u + [x] + s) && !(u + [x] + s <= text)
    ensures u != "" && (u <= text || text <= u) ==> u[0] == text[0]
    ensures u == "" ==> !(text <= u)
  {
    if text <= u + [x] && |text| <= |u| { assert text == (u + [x])[..|text|] == u[..|text|]; }
    if text <= u + [x] { assert (u + [x] + s)[..|text|] == (u + [x])[..|text|]; }
    if !(text <= u + [x]) && !(u + [x] <= text) { Mismatch(text, u + [x], s); }
  }

  /** The bytes of an unfinished keyword would all have been taken by the loop the parser turns to when
      the keyword does not come about. */
  lemma UnfinishedKeyword(t: Table, u: string)
    requires MatchTable(t, u).More?
    ensures !t.NoTable?
    ensures forall i :: 0 <= i < |u| ==> u[i] != '>' && (t.IncludeTable? ==> IsXmlName(u[i]))
  {
    if t.StartTable? { KeywordBytes("!--", u); KeywordBytes("esi:", u); KeywordBytes("![CDATA[", u); }
    if t.EsiTable? { KeywordBytes("include", u); KeywordBytes("remove", u); KeywordBytes("comment", u); }
    if t.IncludeTable? {
      KeywordBytes("src=", u);
      if |u| == 4 { SameLength("src=", u); }
      forall i | 0 <= i < |u| ensures IsXmlName(u[i]) { assert u[i] == "src="[i] && i < 3; }
    }
  }

  lemma SameLength(text: string, u: string)
    requires u <= text && |u| == |text|
    ensures text <= u
  {
  }

  lemma KeywordBytes(text: string, u: string)
    requires '>' !in text
    ensures u <= text ==> forall i :: 0 <= i < |u| ==> u[i] != '>'
  {
    if u <= text {
      forall i | 0 <= i < |u| ensures u[i] != '>' { assert u[i] == text[i]; }
    }
  }

  lemma TagEndMisses(t: Table, u: string)
    requires MatchTable(t, u).More?
    ensures MatchTable(t, u + ['>']).Miss?
  {
    match t
    case NoTable =>
    case StartTable => NoTagEnd("!--", u); NoTagEnd("esi:", u); NoTagEnd("![CDATA[", u);
    case EsiTable => NoTagEnd("include", u); NoTagEnd("remove", u); NoTagEnd("comment", u);
    case IncludeTable => NoTagEnd("src=", u);
  }

  lemma NoTagEnd(text: string, u: string)
    requires '>' !in text && text != ""
    ensures text <= u + ['>'] ==> text <= u
    ensures !(u + ['>'] <= text)
    ensures u != "" && (u <= text || text <= u) ==> u[0] == text[0]
    ensures u == "" ==> !(text <= u)
  {
    var w := u + ['>'];
    if text <= w && |text| > |u| { TagEndIn(text, u); }
    if text <= w && |text| <= |u| { assert text == w[..|text|] == u[..|text|]; }
    if w <= text { TagEndIn'(text, u); }
  }

  lemma TagEndIn(text: string, u: string)
    requires text <= u + ['>'] && |text| > |u|
    ensures '>' in text
  {
    assert text[|u|] == (u + ['>'])[|u|];
  }

  lemma TagEndIn'(text: string, u: string)
    requires u + ['>'] <= text
    ensures '>' in text
  {
    assert text[|u|] == (u + ['>'])[|u|];
  }

  /** The parser after it stored the unfinished keyword `u`. */
  function Buffered(v: Vep, u: string): Vep {
    Vep(v.ctl.(tag := u, state := MATCHBUF), Advance(v.mk, |u|))
  }

  /** States whose loop skips bytes without noticing them. */
  predicate Skims(c: Ctl, b: char) {
    (c.state == NOTMYTAG && b != '>') || (c.state == TAGERROR && b != '>')
    || (c.state == SKIPATTR && IsXmlName(b))
  }

  lemma {:induction false} Skim(v: Vep, u: string, s: string)
    requires !v.ctl.f.dead && s != []
    requires forall i :: 0 <= i < |u| ==> Skims(v.ctl, u[i])
    ensures Loop(v, u + s) == Loop(Vep(v.ctl, Advance(v.mk, |u|)), s)
    decreases |u|
  {
    hide Loop, Iter;
    if u == [] {
      assert u + s == s;
    } else {
      assert Skims(v.ctl, u[0]);
      assert u + s == [u[0]] + (u[1..] + s);
      Unroll(v, u[0], u[1..] + s);
      Skim(Vep(v.ctl, Advance(v.mk, 1)), u[1..], s);
    }
  }

  /** When the keyword does not come about, its bytes are skimmed over either way. */
  lemma SkimKeyword(v: Vep, t: Table, u: string, s: string)
    requires MatchTable(t, u).More? && s != [] && !v.ctl.f.dead && v.ctl.state == Default(t)
    ensures Loop(v, u + s) == Loop(Vep(v.ctl, Advance(v.mk, |u|)), s)
  {
    UnfinishedKeyword(t, u);
    if t.EsiTable? {
      var w := Vep(v.ctl.(state := TAGERROR), v.mk);
      BogonTurns(v, u + s);
      BogonTurns(Vep(v.ctl, Advance(v.mk, |u|)), s);
      Skim(w, u, s);
    } else {
      Skim(v, u, s);
    }
  }

  lemma BogonTurns(v: Vep, s: string)
    requires v.ctl.state == ESIBOGON && !v.ctl.f.dead && s != []
    ensures Loop(v, s) == Loop(Vep(v.ctl.(state := TAGERROR), v.mk), s)
  {
    ZeroMove(v, s);
  }

  /** `v` is about to match a table against input that begins with the unfinished keyword `u`. */
  ghost predicate Unfinished(v: Vep, u: string) {
    !v.ctl.f.dead && v.ctl.state == MATCH && u != [] && MatchTable(v.ctl.match_tbl, u).More?
  }

  lemma CutMiss(v: Vep, u: string, x: char, rest: string)
    requires Unfinished(v, u) && MatchTable(v.ctl.match_tbl, u + [x]).Miss?
    ensures Loop(v, u + ([x] + rest)) == Loop(Buffered(v, u), [x] + rest)
  {
    hide Loop, Iter;
    var t := v.ctl.match_tbl;
    var s := [x] + rest;
    assert u + s == u + [x] + rest;
    MissStays(t, u + [x], rest);
    ZeroMove(v, u + s);
    ZeroMove(Buffered(v, u), s);
    SkimKeyword(Vep(Enter(v.ctl, Default(t)), v.mk), t, u, s);
  }

  lemma CutHit(v: Vep, u: string, x: char, rest: string)
    requires Unfinished(v, u) && MatchTable(v.ctl.match_tbl, u + [x]).Hit? && x != '>'
    ensures Loop(v, u + ([x] + rest)) == Loop(Buffered(v, u), [x] + rest)
  {
    var t := v.ctl.match_tbl;
    var s := [x] + rest;
    assert u + s == u + [x] + rest;
    HitStays(t, u, x, rest);
    var n := |u| + 1;
    var w := Vep(Enter(v.ctl, MatchTable(t, u + [x]).state), Advance(v.mk, n));
    assert (u + s)[n..] == rest && s[1..] == rest;
    assert Iter(v, u + s) == (w, n) by { HitNow(v, u, x, rest); }
    assert Iter(Buffered(v, u), s) == (w, 1) by { HitBuffered(v, u, x, rest); }
    hide Iter, MatchTable;
  }

  /** The keyword is there at once. */
  lemma HitNow(v: Vep, u: string, x: char, rest: string)
    requires Unfinished(v, u) && MatchTable(v.ctl.match_tbl, u + [x]).Hit? && x != '>'
    requires MatchTable(v.ctl.match_tbl, u + [x] + rest) == MatchTable(v.ctl.match_tbl, u + [x])
    requires MatchTable(v.ctl.match_tbl, u + [x]).len == |u| + 1
    ensures Iter(v, u + ([x] + rest))
      == (Vep(Enter(v.ctl, MatchTable(v.ctl.match_tbl, u + [x]).state), Advance(v.mk, |u| + 1)), |u| + 1)
  {
    hide MatchTable, Iter, Enter;
    assert u + ([x] + rest) == u + [x] + rest;
    MatchTakes(v, u + [x] + rest);
  }

  lemma MatchTakes(v: Vep, s: string)
    requires s != [] && v.ctl.state == MATCH && MatchTable(v.ctl.match_tbl, s).Hit?
    ensures var m := MatchTable(v.ctl.match_tbl, s);
      Iter(v, s) == (Vep(Enter(v.ctl, m.state), Advance(v.mk, m.len)), m.len)
  {
    hide MatchTable, Enter;
    assert !Loops(v.ctl, s[0]);
    assert ExitAct(v.ctl, s) == ExitMatch(v.ctl, s);
  }

  /** Its last byte comes after the first were put aside. */
  lemma HitBuffered(v: Vep, u: string, x: char, rest: string)
    requires Unfinished(v, u) && MatchTable(v.ctl.match_tbl, u + [x]).Hit? && x != '>'
    ensures Iter(Buffered(v, u), [x] + rest)
      == (Vep(Enter(v.ctl, MatchTable(v.ctl.match_tbl, u + [x]).state), Advance(v.mk, |u| + 1)), 1)
  {
    hide MatchTable;
  }

  lemma CutLast(v: Vep, u: string, x: char)
    requires Unfinished(v, u) && MatchTable(v.ctl.match_tbl, u + [x]).More? && x != '>'
    ensures Loop(v, u + [x]) == Loop(Buffered(v, u), [x])
  {
    BufferAll(v, u + [x]);
    BufferLast(v, u, x);
  }

  /** Matching a keyword at once, or after its first bytes were buffered, leads to the same place. */
  lemma {:induction false} MatchCut(v: Vep, u: string, s: string)
    requires Unfinished(v, u) && s != []
    ensures Loop(v, u + s) == Loop(Buffered(v, u), s)
    decreases |s|
  {
    var x, rest := s[0], s[1..];
    assert s == [x] + rest;
    if x == '>' { TagEndMisses(v.ctl.match_tbl, u); }
    if MatchTable(v.ctl.match_tbl, u + [x]).Miss? { CutMiss(v, u, x, rest); }
    else if MatchTable(v.ctl.match_tbl, u + [x]).Hit? { CutHit(v, u, x, rest); }
    else if rest == [] {
      assert s == [x];
      CutLast(v, u, x);
    } else {
      assert u + s == u + [x] + rest;
      MatchCut(v, u + [x], rest);
      BufferStep(v, u, x, rest);
    }
  }

  lemma BufferStep(v: Vep, u: string, x: char, rest: string)
    requires Unfinished(v, u) && MatchTable(v.ctl.match_tbl, u + [x]).More? && x != '>' && rest != []
    ensures Loop(Buffered(v, u), [x] + rest) == Loop(Buffered(v, u + [x]), rest)
  {
    BufferMore(v, u, x);
    Unroll(Buffered(v, u), x, rest);
  }

  lemma BufferMore(v: Vep, u: string, x: char)
    requires Unfinished(v, u) && MatchTable(v.ctl.match_tbl, u + [x]).More? && x != '>'
    ensures Loops(Buffered(v, u).ctl, x)
    ensures Move(Buffered(v, u), LoopAct(Buffered(v, u).ctl, x)) == Buffered(v, u + [x])
  {
  }

  lemma BufferAll(v: Vep, u: string)
    requires Unfinished(v, u)
    ensures Loop(v, u) == Buffered(v, u)
  {
    assert Iter(v, u) == (Buffered(v, u), |u|);
  }

  lemma BufferLast(v: Vep, u: string, x: char)
    requires Unfinished(v, u) && MatchTable(v.ctl.match_tbl, u + [x]).More? && x != '>'
    ensures Loop(Buffered(v, u), [x]) == Buffered(v, u + [x])
  {
    BufferMore(v, u, x);
    UnrollLast(Buffered(v, u), x);
  }

  // ---- early marks do not matter ----

  /** The same control state, and marks that differ only by marks already made that will be made anyway. */
  ghost predicate Sim(x: Vep, y: Vep) {
    x.ctl == y.ctl && (!x.ctl.f.astray && !x.ctl.f.dead ==> Alike(FateOf(x.ctl), x.mk, y.mk))
  }

  lemma ApplyAlike(c: Ctl, a: Act, m: Marks, n: Marks)
    requires Alike(FateOf(c), m, n) && Fits(c, a) && (a.emit.Some? ==> a.mark.Some?)
    ensures Alike(FateOf(a.ctl), Apply(m, a), Apply(n, a))
  {
    var f, f' := FateOf(c), FateOf(a.ctl);
    match a.mark
    case None =>
      AlikeAdvance(f, f', m, n, a.pre);
      AlikeAdvance(f', f', Advance(m, a.pre), Advance(n, a.pre), a.post);
    case Some(mark) => AlikeMark(f, m, n, a.pre, mark);
  }

  lemma ExitOneGood(c: Ctl, b: char)
    requires Sane(c) && !Loops(c, b)
    ensures GoodExit(c, ExitOne(c, b))
  {
    if TextState(c.state) { TextExit(c, b, false); } else { ExitGood(c, [b]); }
  }

  lemma LoopMoveAlike(x: Vep, y: Vep, b: char)
    requires Sim(x, y) && Sane(x.ctl) && !x.ctl.f.dead && Loops(x.ctl, b)
    ensures var a := LoopAct(x.ctl, b); Sim(Move(x, a), Move(y, a)) && Sane(a.ctl)
  {
    LoopSane(x.ctl, b);
    LoopKeepsAlive(x.ctl, b);
    var a := LoopAct(x.ctl, b);
    if !a.ctl.f.astray {
      LoopFits(x.ctl, b);
      ApplyAlike(x.ctl, a, x.mk, y.mk);
    }
  }

  lemma ExitMoveAlike(x: Vep, y: Vep, b: char)
    requires Sim(x, y) && Sane(x.ctl) && !x.ctl.f.dead && !Loops(x.ctl, b)
    ensures var a := ExitOne(x.ctl, b); Sim(Move(x, a), Move(y, a)) && (!a.ctl.f.dead ==> Sane(a.ctl))
  {
    ExitOneGood(x.ctl, b);
    var a := ExitOne(x.ctl, b);
    if !a.ctl.f.dead && !a.ctl.f.astray { ApplyAlike(x.ctl, a, x.mk, y.mk); }
  }

  /** Alike parsers stay alike over any byte. */
  lemma {:induction false} ByteAlike(x: Vep, y: Vep, b: char)
    requires Sim(x, y) && (!x.ctl.f.dead ==> Sane(x.ctl))
    ensures Sim(Byte(x, b), Byte(y, b)) && (!Byte(x, b).ctl.f.dead ==> Sane(Byte(x, b).ctl))
    decreases Rank(x.ctl, b)
  {
    hide Sim, Sane, ExitOne, LoopAct;
    SimMeans(x, y);
    if x.ctl.f.dead {
    } else if Loops(x.ctl, b) {
      LoopMoveAlike(x, y, b);
    } else {
      ExitMoveAlike(x, y, b);
      var a := ExitOne(x.ctl, b);
      if a.Eaten() == 0 && !a.ctl.f.dead {
        ExitOneRank(x.ctl, b);
        ByteAlike(Move(x, a), Move(y, a), b);
      }
    }
  }

  lemma SimMeans(x: Vep, y: Vep)
    requires Sim(x, y)
    ensures x.ctl == y.ctl
  {
  }

  /** And over any input. */
  lemma {:induction false} BytesAlike(x: Vep, y: Vep, s: string)
    requires Sim(x, y) && (!x.ctl.f.dead ==> Sane(x.ctl))
    ensures Sim(Bytes(x, s), Bytes(y, s)) && (!Bytes(x, s).ctl.f.dead ==> Sane(Bytes(x, s).ctl))
    decreases |s|
  {
    hide Byte, Sim, Sane;
    if s != [] {
      ByteAlike(x, y, s[0]);
      BytesAlike(Byte(x, s[0]), Byte(y, s[0]), s[1..]);
    }
  }

  // ---- inside a tag, the last mark was verbatim ----

  predicate InTag(c: Ctl) {
    c.state == STARTTAG || c.state == COMMENT || c.state == CDATA || c.state == NOTMYTAG || c.state == UNTIL
    || (Matching(c.state) && c.match_tbl.StartTable?)
  }

  predicate Leads(c: Ctl) { (InTag(c) || c.f.loose) && !c.f.remove }

  ghost predicate Led(v: Vep) { Leads(v.ctl) ==> v.mk.last_mark == VERBATIM }

  ghost predicate KeepsLead(c: Ctl, a: Act) {
    Leads(a.ctl) ==> a.mark == Some(VERBATIM) || (a.mark.None? && Leads(c))
  }

  lemma MoveLed(v: Vep, a: Act)
    requires Led(v) && KeepsLead(v.ctl, a)
    ensures Led(Move(v, a))
  {
  }

  lemma LoopLed(c: Ctl, b: char)
    requires Sane(c) && Loops(c, b)
    ensures KeepsLead(c, LoopAct(c, b))
  {
  }

  lemma ExitLed(c: Ctl, b: char)
    requires Sane(c) && !Loops(c, b)
    ensures !ExitOne(c, b).ctl.f.dead ==> KeepsLead(c, ExitOne(c, b))
  {
    if TextState(c.state) { TextLed(c, b); }
    else if OpenState(c.state) { OpenLed(c, b); }
    else if AttrState(c.state) { AttrLed(c, b); }
    else {
      if c.state == INTAG { InTagLed(c, b); }
      else if c.state == TAGERROR { TagErrorLed(c); }
      else if c.state == MATCH { MatchLed(c, b); }
      else { MatchBufLed(c, b); }
    }
  }

  lemma TextLed(c: Ctl, b: char)
    requires Sane(c) && TextState(c.state) && !Loops(c, b)
    ensures KeepsLead(c, ExitText(c, b, false))
  {
  }

  lemma OpenLed(c: Ctl, b: char)
    requires Sane(c) && OpenState(c.state)
    ensures KeepsLead(c, ExitOpen(c, b))
  {
  }

  lemma AttrLed(c: Ctl, b: char)
    requires Sane(c) && AttrState(c.state)
    ensures !ExitAttr(c, b).ctl.f.dead ==> KeepsLead(c, ExitAttr(c, b))
  {
  }

  lemma InTagLed(c: Ctl, b: char)
    requires Sane(c) && c.state == INTAG
    ensures !ExitInTag(c, b).ctl.f.dead ==> KeepsLead(c, ExitInTag(c, b))
  {
    if b == '>' { DoTagKeeps(c); }
    hide DoTag;
  }

  lemma TagErrorLed(c: Ctl)
    requires Sane(c) && c.state == TAGERROR
    ensures KeepsLead(c, ExitTagError(c))
  {
  }

  lemma MatchLed(c: Ctl, b: char)
    requires Sane(c) && c.state == MATCH
    ensures KeepsLead(c, ExitMatch(c, [b]))
  {
  }

  lemma MatchBufLed(c: Ctl, b: char)
    requires Sane(c) && c.state == MATCHBUF
    ensures KeepsLead(c, ExitMatchBuf(c, b))
  {
  }

  lemma {:induction false} ByteLed(v: Vep, b: char)
    requires Sane(v.ctl) && Led(v)
    ensures !Byte(v, b).ctl.f.dead ==> Led(Byte(v, b))
    decreases Rank(v.ctl, b)
  {
    hide Led, Sane, KeepsLead, LoopAct, ExitOne;
    if v.ctl.f.dead {
    } else if Loops(v.ctl, b) {
      LoopLed(v.ctl, b);
      MoveLed(v, LoopAct(v.ctl, b));
    } else {
      var a := ExitOne(v.ctl, b);
      ExitLed(v.ctl, b);
      if !a.ctl.f.dead {
        MoveLed(v, a);
        GoodIsSane(v.ctl, b);
        if a.Eaten() == 0 {
          ExitOneRank(v.ctl, b);
          ByteLed(Move(v, a), b);
        }
      }
    }
  }

  lemma GoodIsSane(c: Ctl, b: char)
    requires Sane(c) && !Loops(c, b)
    ensures !ExitOne(c, b).ctl.f.dead ==> Sane(ExitOne(c, b).ctl)
  {
    ExitOneGood(c, b);
  }

  // ---- whole pieces ----

  /** All marked up, as a piece leaves it. What is loose waits for a verbatim mark. */
  ghost predicate Settled(v: Vep) {
    && v.mk.run == 0
    && (FateOf(v.ctl) != Pending && !v.ctl.f.loose ==> v.mk.o_pending == 0)
  }

  /** The parser between two pieces. */
  ghost predicate Between(v: Vep) {
    !v.ctl.f.dead ==> Sane(v.ctl) && Led(v) && Settled(v)
  }

  /** A piece comes to what its bytes come to. */
  lemma {:induction false} LoopIsBytes(v: Vep, s: string)
    requires s != [] && (!v.ctl.f.dead ==> Sane(v.ctl) && Led(v))
    ensures EndsAs(Bytes(v, s), Loop(v, s))
    ensures var w, l := Bytes(v, s), Loop(v, s);
      !w.ctl.f.dead ==> Sane(w.ctl) && Led(w) && exists u :: EndOK(u, w, l)
    decreases |s|
  {
    hide Byte, Sane, Led, EndsAs, EndOK;
    var b, rest := s[0], s[1..];
    assert s == [b] + rest;
    SimSelf(v);
    ByteAlike(v, v, b);
    if !v.ctl.f.dead { ByteLed(v, b); } else { DeadByte(v, b); }
    if rest == [] {
      assert s == [b] && Bytes(v, s) == Byte(v, b);
      LoopLast(v, b);
      if !Byte(v, b).ctl.f.dead { assert EndOK(v, Byte(v, b), Loop(v, s)); }
    } else {
      LoopByte(v, b, rest);
      LoopIsBytes(Byte(v, b), rest);
    }
  }

  lemma SimSelf(v: Vep)
    ensures Sim(v, v)
  {
  }

  lemma DeadByte(v: Vep, b: char)
    requires v.ctl.f.dead
    ensures Byte(v, b) == v
  {
  }

  lemma ParseIsBytes(v: Vep, s: string)
    requires s != [] && (!v.ctl.f.dead ==> Sane(v.ctl) && Led(v))
    ensures Sim(Parse(v, s), Bytes(v, s)) && Between(Parse(v, s))
  {
    LoopIsBytes(v, s);
    var w, l := Bytes(v, s), Loop(v, s);
    hide Loop, Bytes, Sane;
    if !w.ctl.f.dead {
      var u :| EndOK(u, w, l);
      EndPieceSettles(u, w, l);
    }
  }

  lemma EndPieceSettles(u: Vep, w: Vep, l: Vep)
    requires EndsAs(w, l) && EndOK(u, w, l) && !w.ctl.f.dead && Sane(w.ctl) && Led(w)
    ensures Sim(EndPiece(l), w) && Settled(EndPiece(l)) && Led(EndPiece(l))
  {
    if l != w { MarkIsAlike(Verb, w.mk); }
    if FateOf(w.ctl) == Skipped { MarkIsAlike(Skipped, w.mk); }
  }

  lemma FlatNonEmpty(pieces: seq<string>)
    requires AllNonEmpty(pieces) && pieces != []
    ensures Flat(pieces) != []
  {
    assert |Flat(pieces)| >= |pieces[0]| > 0;
  }

  /** Feeding pieces comes to what the bytes of the document come to, wherever the pieces end. */
  lemma {:induction false} FeedIsBytes(v: Vep, pieces: seq<string>)
    requires AllNonEmpty(pieces) && Between(v)
    ensures Sim(Feed(v, pieces), Bytes(v, Flat(pieces))) && Between(Feed(v, pieces))
    decreases |pieces|
  {
    hide Parse, Bytes, Between, Sim, Sane, Led;
    if pieces == [] {
      NoBytes(v);
      SimSelf(v);
    } else {
      var a, rest := pieces[0], Flat(pieces[1..]);
      BetweenMeans(v);
      ParseIsBytes(v, a);
      var w := Parse(v, a);
      FeedIsBytes(w, pieces[1..]);
      BetweenMeans(w);
      BytesAlike(w, Bytes(v, a), rest);
      BytesJoin(v, a, rest);
      SimTrans(Feed(v, pieces), Bytes(w, rest), Bytes(v, a + rest));
    }
  }

  lemma NoBytes(v: Vep)
    ensures Bytes(v, []) == v
  {
  }

  lemma BetweenMeans(v: Vep)
    requires Between(v)
    ensures !v.ctl.f.dead ==> Sane(v.ctl) && Led(v)
  {
  }

  lemma SimTrans(x: Vep, y: Vep, z: Vep)
    requires Sim(x, y) && Sim(y, z)
    ensures Sim(x, z) && Sim(z, x)
  {
  }

  /** What is still to be emitted makes up for marks not yet made. */
  lemma SameFinish(x: Vep, y: Vep)
    requires Sim(x, y) && Between(x) && Between(y) && !x.ctl.f.astray && !x.ctl.f.dead
    ensures Finish(x) == Finish(y)
  {
    if FateOf(x.ctl) != Pending {
      FinishSettled(x, MarkOf(FateOf(x.ctl)));
      FinishSettled(y, MarkOf(FateOf(y.ctl)));
    }
  }

  lemma FinishSettled(v: Vep, mark: Mark)
    requires v.mk.run == 0 && (v.mk.o_pending == 0 || v.mk.last_mark == mark)
    ensures Finish(v) == Finish(v.(mk := MarkCommon(v.mk, mark)))
  {
  }

  lemma InitBetween(url: string)
    ensures Between(Init(url))
  {
  }

  /** However a document is cut into non-empty pieces, the parser ends in the very same control state as for
      the document in one piece, failed assertions and `astray` included; and unless that is raised or an
      assertion failed, the instructions are the very same. */
  lemma SplitIndependence(url: string, pieces: seq<string>)
    requires AllNonEmpty(pieces) && pieces != []
    ensures Flat(pieces) != []
    ensures var whole, cut := Parse(Init(url), Flat(pieces)), Feed(Init(url), pieces);
      whole.ctl == cut.ctl && (!whole.ctl.f.astray && !whole.ctl.f.dead ==> Finish(cut) == Finish(whole))
  {
    hide Parse, Feed, Bytes, Between, Sim, Sane, Led, Finish;
    FlatNonEmpty(pieces);
    InitBetween(url);
    BetweenMeans(Init(url));
    var v, doc := Init(url), Flat(pieces);
    FeedIsBytes(v, pieces);
    ParseIsBytes(v, doc);
    SimTrans(Feed(v, pieces), Bytes(v, doc), Bytes(v, doc)) by { SimSelf(Bytes(v, doc)); }
    SimTrans(Parse(v, doc), Bytes(v, doc), Feed(v, pieces));
    SimMeans(Parse(v, doc), Feed(v, pieces));
    if !Parse(v, doc).ctl.f.astray && !Parse(v, doc).ctl.f.dead { SameFinish(Parse(v, doc), Feed(v, pieces)); }
  }
}
