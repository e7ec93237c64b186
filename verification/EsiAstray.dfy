/** Two documents with comments whose instructions do depend on how they are cut. */
module EsiAstray {
  import opened Wrappers
  import opened Seqs
  import opened EsiMarks
  import opened EsiStep
  import opened EsiParse

  /** One turn of the outer loop, when its pass is known. */
  lemma Turn(v: Vep, s: string, w: Vep, n: nat, rest: string)
    requires s != [] && !v.ctl.f.dead && Iter(v, s) == (w, n) && s[n..] == rest && !w.ctl.f.dead
    ensures Loop(v, s) == Loop(w, rest)
  {
    IterProgress(v, s);
  }

  /** A turn that leaves the state at once. */
  lemma Exit(v: Vep, s: string, rest: string)
    requires s != [] && !v.ctl.f.dead && !Loops(v.ctl, s[0])
    requires var a := ExitAct(v.ctl, s); s[a.Eaten()..] == rest && !a.ctl.f.dead
    ensures Loop(v, s) == Loop(Move(v, ExitAct(v.ctl, s)), rest)
  {
    var a := ExitAct(v.ctl, s);
    Turn(v, s, Move(v, a), a.Eaten(), rest);
  }

  const FLAGS: Flags := Flags(false, false, false, false, false, false, false, false, false)

  function Clear(url: string): Attrs { Attrs(false, None, '\0', NoDo, None, url) }

  /** The parser when it stands before a tag that started at the beginning. */
  function AtTag(url: string): Vep {
    Vep(Ctl(STARTTAG, FLAGS, Cursor(NoText, 0), START, Cursor(NoText, 0), NoTable, "", Clear(url)),
        Marks([], VERBATIM, 0, 0, 0, 0, 1))
  }

  lemma FirstTag(url: string, s: string)
    requires s != []
    ensures Loop(Init(url), ['<'] + s) == Loop(AtTag(url), s)
  {
    var t := ['<'] + s;
    var v := Init(url);
    assert t[0..] == t && t[1..] == s;
    Exit(v, t, t);
    var w := Move(v, Just(v.ctl.(state := TESTXML)));
    Exit(w, t, s);
  }

  /** From the start of a tag to the state of its keyword. */
  lemma Keyword(v: Vep, s: string, n: nat, st: State)
    requires v.ctl.state == STARTTAG && !v.ctl.f.dead && s != [] && s[0] != '/'
    requires MatchTable(StartTable, s) == Hit(n, st)
    ensures Loop(v, s) == Loop(Vep(Enter(v.ctl, st), Advance(v.mk, n)), s[n..])
  {
    hide Loop, Iter, MatchTable;
    var v1 := Vep(v.ctl.(match_tbl := StartTable, state := MATCH), v.mk);
    assert s[0..] == s;
    Exit(v, s, s);
    Exit(v1, s, s[n..]);
  }

  lemma EsiKeyword(v: Vep, s: string, n: nat, st: State)
    requires v.ctl.state == ESITAG && !v.ctl.f.dead && s != []
    requires MatchTable(EsiTable, s) == Hit(n, st)
    ensures var c := v.ctl.(f := v.ctl.f.(in_esi_tag := true, esi_found := true));
      Loop(v, s) == Loop(Vep(Enter(c, st), Advance(MarkCommon(v.mk, SKIP), n)), s[n..])
  {
    hide Loop, Iter, MatchTable;
    assert s[0..] == s;
    Exit(v, s, s);
    var v1 := Move(v, ExitAct(v.ctl, s));
    Exit(v1, s, s[n..]);
  }

  lemma RemoveEnds(v: Vep)
    requires v.ctl.state == ESIREMOVE && !v.ctl.f.dead && !v.ctl.f.emptytag && !v.ctl.f.endtag && !v.ctl.f.remove
    ensures Loop(v, ">") == Vep(v.ctl.(a := v.ctl.a.(dostuff := DoRemove), state := NEXTTAG,
                                       f := v.ctl.f.(remove := true, in_esi_tag := false)),
                                MarkCommon(Advance(v.mk, 1), SKIP))
  {
    hide Iter;
    Exit(v, ">", ">");
    Exit(Move(v, ExitAct(v.ctl, ">")), ">", "");
  }

  // ---- an ordinary comment inside a removed part ----

  /** After an opening remove tag, twelve bytes in. */
  function Removing(url: string): Vep {
    Vep(Ctl(NEXTTAG, FLAGS.(esi_found := true, remove := true), Cursor(NoText, 0), START, Cursor(NoText, 0),
            NoTable, "", Clear(url).(dostuff := DoRemove)),
        Marks([], SKIP, 12, 0, 0, 12, 0))
  }

  lemma OpenRemove(url: string)
    ensures Parse(Init(url), "<esi:remove>") == Removing(url)
  {
    hide Loop, Iter, MatchTable;
    var s := "esi:remove>";
    assert "<esi:remove>" == ['<'] + s;
    FirstTag(url, s);
    RemoveWords();
    Keyword(AtTag(url), s, 4, ESITAG);
    var v := Vep(Enter(AtTag(url).ctl, ESITAG), Advance(AtTag(url).mk, 4));
    assert s[4..] == "remove>" && "remove>"[6..] == ">";
    EsiKeyword(v, "remove>", 6, ESIREMOVE);
    var c := v.ctl.(f := v.ctl.f.(in_esi_tag := true, esi_found := true));
    RemoveEnds(Vep(Enter(c, ESIREMOVE), Advance(MarkCommon(v.mk, SKIP), 6)));
  }

  lemma RemoveWords()
    ensures MatchTable(StartTable, "esi:remove>") == Hit(4, ESITAG)
    ensures MatchTable(EsiTable, "remove>") == Hit(6, ESIREMOVE)
  {
    TriesHit("esi:", ESITAG, "remove>", Try("![CDATA[", CDATA, "esi:remove>", Miss));
    assert "esi:" + "remove>" == "esi:remove>" && "esi:remove>"[0] != "!--"[0];
    TriesHit("remove", ESIREMOVE, ">", Try("comment", ESICOMMENT, "remove>", Miss));
    assert "remove" + ">" == "remove>" && "remove>"[0] != "include"[0];
  }

  lemma TriesHit(text: string, st: State, rest: string, later: Found)
    ensures Try(text, st, text + rest, later) == Hit(|text|, st)
  {
  }

  /** What is left to do once a comment was met in a removed part. */
  lemma RemovedEnd(w: Vep, n: nat, m: nat)
    requires !w.ctl.f.dead && w.ctl.f.remove && w.ctl.f.esi_found
    requires w.mk == Marks([Skip(n)], VERBATIM, m, 0, n, n + m, 1) && m > 0
    ensures Finish(EndPiece(w)) == Some([Skip(n), Verbatim(m), Skip(1)])
  {
    assert EndPiece(w).mk == Marks([Skip(n), Verbatim(m)], SKIP, 1, 0, n + m, n + m + 1, 0);
    assert [Skip(n), Verbatim(m)] + [Skip(1)] == [Skip(n), Verbatim(m), Skip(1)];
  }

  /** What counts of a state inside a removed part. */
  ghost predicate InRemoved(v: Vep) {
    !v.ctl.f.dead && v.ctl.f.remove && v.ctl.f.esi_found && !v.ctl.f.in_esi_tag
    && v.ctl.esicmt == Cursor(NoText, 0)
  }

  lemma RemovedTag(v: Vep, s: string) returns (w: Vep)
    requires InRemoved(v) && v.ctl.state == NEXTTAG && s != []
    ensures InRemoved(w) && w.ctl.state == STARTTAG && w.mk == Advance(v.mk, 1)
    ensures Loop(v, ['<'] + s) == Loop(w, s)
  {
    hide Loop, Iter;
    var t := ['<'] + s;
    assert t[1..] == s;
    Exit(v, t, s);
    w := Move(v, ExitAct(v.ctl, t));
  }

  /** A comment is opened in the removed part, in one piece. */
  lemma CommentWhole(url: string)
    ensures Finish(Parse(Removing(url), "<!--x")) == Some([Skip(12), Verbatim(4), Skip(1)])
  {
    hide Loop, Iter, MatchTable, ExitAct, EndPiece, Finish;
    var v := Removing(url);
    assert "<!--x" == ['<'] + "!--x" && "!--x"[3..] == "x";
    var w := RemovedTag(v, "!--x");
    CommentWord();
    Keyword(w, "!--x", 3, COMMENT);
    NotEsi(Vep(Enter(w.ctl, COMMENT), Advance(w.mk, 3)));
    RemovedEnd(Loop(v, "<!--x"), 12, 4);
  }

  /** The same bytes with the keyword cut. */
  lemma CommentCut(url: string)
    ensures Finish(Parse(Parse(Removing(url), "<!-"), "-x")) == Some([Skip(15), Verbatim(1), Skip(1)])
  {
    hide Loop, Iter, MatchTable, ExitAct, EndPiece, Finish;
    var v := Removing(url);
    assert "<!-" == ['<'] + "!-";
    var w := RemovedTag(v, "!-");
    HalfKeyword(w);
    var u := EndPiece(Loop(w, "!-"));
    OtherHalf(u);
    RemovedEnd(Loop(u, "-x"), 15, 1);
  }

  lemma HalfKeyword(w: Vep)
    requires InRemoved(w) && w.ctl.state == STARTTAG && w.mk == Marks([], SKIP, 12, 0, 0, 12, 1)
    ensures var u := EndPiece(Loop(w, "!-"));
      && InRemoved(u) && u.ctl.state == MATCHBUF && u.ctl.tag == "!-" && u.ctl.match_tbl == StartTable
      && u.mk == Marks([], SKIP, 15, 0, 0, 15, 0)
  {
    hide Iter;
    var s := "!-";
    assert s[0..] == s && s[2..] == "";
    Exit(w, s, s);
    var w1 := Move(w, ExitAct(w.ctl, s));
    assert MatchTable(StartTable, s).More? by { assert s == "!--"[..2]; }
    Exit(w1, s, "");
  }

  lemma OtherHalf(u: Vep)
    requires InRemoved(u) && u.ctl.state == MATCHBUF && u.ctl.tag == "!-" && u.ctl.match_tbl == StartTable
    requires u.mk == Marks([], SKIP, 15, 0, 0, 15, 0)
    ensures var w := Loop(u, "-x");
      && !w.ctl.f.dead && w.ctl.f.remove && w.ctl.f.esi_found
      && w.mk == Marks([Skip(15)], VERBATIM, 1, 0, 15, 16, 1)
  {
    hide Loop, Iter;
    assert "!-" + ['-'] == "!--" && "-x"[1..] == "x";
    assert MatchTable(StartTable, "!--") == Hit(3, COMMENT);
    Exit(u, "-x", "x");
    NotEsi(Vep(Enter(u.ctl, COMMENT), Advance(u.mk, 1)));
  }

  lemma CommentWord()
    ensures MatchTable(StartTable, "!--x") == Hit(3, COMMENT)
  {
    TriesHit("!--", COMMENT, "x", Try("esi:", ESITAG, "!--x", Try("![CDATA[", CDATA, "!--x", Miss)));
    assert "!--" + "x" == "!--x";
  }

  /** The rest of the document is one byte of comment. */
  lemma NotEsi(v: Vep)
    requires v.ctl.state == COMMENT && !v.ctl.f.dead && v.ctl.esicmt == Cursor(NoText, 0) && v.ctl.f.remove
    ensures Loop(v, "x") == Vep(
      v.ctl.(until := Cursor(CommentEnd, 0), until_s := NEXTTAG, state := UNTIL, f := v.ctl.f.(astray := true)),
      Advance(MarkCommon(v.mk, VERBATIM), 1))
  {
    Exit(v, "x", "x");
    var w := Move(v, ExitAct(v.ctl, "x"));
    Turn(w, "x", Vep(w.ctl, Advance(w.mk, 1)), 1, "");
  }

  /** Cutting a document inside a comment inside a removed part changes what is sent of it: line 708
      marks what came before the comment verbatim whether or not it is being removed. */
  lemma RemovedCommentDependsOnCut(url: string)
    ensures var a, b := ["<esi:remove>", "<!--x"], ["<esi:remove>", "<!-", "-x"];
      && AllNonEmpty(a) && AllNonEmpty(b) && Flat(a) == Flat(b)
      && Finish(Feed(Init(url), a)) == Some([Skip(12), Verbatim(4), Skip(1)])
      && Finish(Feed(Init(url), b)) == Some([Skip(15), Verbatim(1), Skip(1)])
  {
    hide Parse, Finish;
    OpenRemove(url);
    CommentWhole(url);
    CommentCut(url);
    var a, b := ["<esi:remove>", "<!--x"], ["<esi:remove>", "<!-", "-x"];
    assert a[1..] == ["<!--x"] && b[1..] == ["<!-", "-x"];
    FeedTwo(Init(url), "<esi:remove>", "<!--x");
    FeedTwo(Parse(Init(url), "<esi:remove>"), "<!-", "-x");
    assert Flat(a) == "<esi:remove>" + "<!--x" && Flat(b[1..]) == "<!-" + "-x";
  }

  lemma FeedTwo(v: Vep, a: string, b: string)
    requires a != [] && b != []
    ensures Feed(v, [a, b]) == Parse(Parse(v, a), b) && Flat([a, b]) == a + b
  {
    hide Parse;
    assert [a, b][1..] == [b] && [b][1..] == [];
    assert Feed(v, [a, b]) == Feed(Parse(v, a), [b]) == Feed(Parse(Parse(v, a), b), []);
    assert Flat([b]) == b + [];
  }

  // ---- a tag in the middle of the end of an ESI comment ----

  /** Inside an ESI comment, after two of the three bytes that end it. */
  ghost predicate Ending(v: Vep) {
    && v.ctl.state == NEXTTAG && v.ctl.esicmt == Cursor(CommentEnd, 2)
    && !v.ctl.f.dead && !v.ctl.f.remove && !v.ctl.f.in_esi_tag
  }

  lemma OpenEsiComment(url: string)
    ensures var v := Parse(Init(url), "<!--esi--");
      Ending(v) && v.mk == Marks([Skip(7)], VERBATIM, 0, 2, 7, 7, 0)
  {
    hide Loop, Iter, MatchTable;
    var s := "!--esi--";
    assert "<!--esi--" == ['<'] + s && s[3..] == "esi--";
    FirstTag(url, s);
    EsiCommentWord();
    Keyword(AtTag(url), s, 3, COMMENT);
    EsiText(Vep(Enter(AtTag(url).ctl, COMMENT), Advance(AtTag(url).mk, 3)));
  }

  lemma EsiCommentWord()
    ensures MatchTable(StartTable, "!--esi--") == Hit(3, COMMENT)
  {
    TriesHit("!--", COMMENT, "esi--", Try("esi:", ESITAG, "!--esi--", Try("![CDATA[", CDATA, "!--esi--", Miss)));
    assert "!--" + "esi--" == "!--esi--";
  }

  lemma Two(v: Vep, b: char, s: string, w: Vep, n: nat)
    requires Loops(v.ctl, b) && s != [] && Iter(Move(v, LoopAct(v.ctl, b)), s) == (w, n)
    ensures Iter(v, [b] + s) == (w, n + 1)
  {
    hide Loops, LoopAct;
    assert ([b] + s)[0] == b && ([b] + s)[1..] == s;
  }

  lemma EsiText(v: Vep)
    requires v.ctl.state == COMMENT && v.ctl.esicmt == Cursor(NoText, 0)
    requires !v.ctl.f.dead && !v.ctl.f.remove && !v.ctl.f.in_esi_tag && v.mk == Marks([], VERBATIM, 0, 0, 0, 0, 4)
    ensures var w := Loop(v, "esi--"); Ending(w) && w.mk == Marks([Skip(7)], VERBATIM, 0, 0, 7, 7, 2)
  {
    hide Loop, Iter, ExitAct;
    var v1 := Vep(v.ctl.(esicmt := Cursor(Esi, 1)), Advance(v.mk, 1));
    var v2 := Vep(v.ctl.(esicmt := Cursor(Esi, 2)), Advance(v.mk, 2));
    var v3 := Vep(v.ctl.(esicmt := Cursor(CommentEnd, 0), state := NEXTTAG), MarkCommon(Advance(v.mk, 3), SKIP));
    LastByte(v2, v3);
    Two(v1, 's', "i--", v3, 1);
    assert "si--" == ['s'] + "i--" && "esi--" == ['e'] + "si--";
    Two(v, 'e', "si--", v3, 2);
    assert "esi--"[3..] == "--";
    Turn(v, "esi--", v3, 3, "--");
    Dashes(v3);
  }

  lemma LastByte(v: Vep, w: Vep)
    requires v.ctl.state == COMMENT && v.ctl.esicmt == Cursor(Esi, 2)
    requires w == Vep(v.ctl.(esicmt := Cursor(CommentEnd, 0), state := NEXTTAG),
                      MarkCommon(Advance(v.mk, 1), SKIP))
    ensures Iter(v, "i--") == (w, 1)
  {
  }

  lemma Dashes(v: Vep)
    requires v.ctl.state == NEXTTAG && v.ctl.esicmt == Cursor(CommentEnd, 0)
    requires !v.ctl.f.dead && !v.ctl.f.remove && !v.ctl.f.in_esi_tag && v.mk == Marks([], SKIP, 7, 0, 0, 7, 0)
    ensures var w := Loop(v, "--"); Ending(w) && w.mk == Marks([Skip(7)], VERBATIM, 0, 0, 7, 7, 2)
  {
    hide Loop;
    var v1 := Move(v, LoopAct(v.ctl, '-'));
    var v2 := Move(v1, LoopAct(v1.ctl, '-'));
    assert "--" == ['-'] + "-";
    assert Iter(v1, "-") == (v2, 1);
    Two(v, '-', "-", v2, 1);
    Turn(v, "--", v2, 2, "");
    LoopNil(v2);
  }

  lemma LoopNil(v: Vep)
    ensures Loop(v, "") == v
  {
  }

  /** As Ending, but in the tag that came in between. */
  ghost predicate EndingIn(v: Vep, st: State) {
    && v.ctl.state == st && v.ctl.esicmt == Cursor(CommentEnd, 2)
    && !v.ctl.f.dead && !v.ctl.f.remove && !v.ctl.f.in_esi_tag
  }

  /** The tag `<b` in the middle of the end. */
  lemma TagBetween(v: Vep, s: string) returns (w: Vep)
    requires Ending(v) && s != [] && MatchTable(StartTable, ['b'] + s).Miss?
    ensures EndingIn(w, NOTMYTAG) && w.mk == Advance(MarkCommon(v.mk, VERBATIM), 1)
    ensures Loop(v, ['<', 'b'] + s) == Loop(w, ['b'] + s)
  {
    hide Loop, Iter, MatchTable;
    var t := ['b'] + s;
    var t0 := ['<', 'b'] + s;
    assert t0[1..] == t && t[0..] == t;
    Exit(v, t0, t);
    var w1 := Move(v, ExitAct(v.ctl, t0));
    Exit(w1, t, t);
    var w2 := Vep(w1.ctl.(match_tbl := StartTable, state := MATCH), w1.mk);
    Exit(w2, t, t);
    w := Vep(Enter(w2.ctl, NOTMYTAG), w2.mk);
  }

  lemma NotAKeyword(s: string)
    ensures MatchTable(StartTable, ['b'] + s).Miss?
  {
    var t := ['b'] + s;
    Differs("!--", COMMENT, t, Try("esi:", ESITAG, t, Try("![CDATA[", CDATA, t, Miss)));
    Differs("esi:", ESITAG, t, Try("![CDATA[", CDATA, t, Miss));
    Differs("![CDATA[", CDATA, t, Miss);
  }

  lemma Differs(text: string, st: State, t: string, later: Found)
    requires text != [] && t != [] && text[0] != t[0]
    ensures Try(text, st, t, later) == later
  {
  }

  /** The last byte of the end, when `n` bytes of storage wait to be skipped with it. */
  lemma EndSkips(v: Vep, m: nat, n: nat)
    requires Ending(v) && v.mk == Marks([Skip(7)], VERBATIM, m, 0, 7, 7 + m, n) && m > 0
    ensures Loop(v, ">").ctl.f.esi_found && !Loop(v, ">").ctl.f.dead
    ensures Loop(v, ">").mk == Marks([Skip(7), Verbatim(m), Skip(n + 1)], VERBATIM, 0, 0, 8 + m + n, 8 + m + n, 0)
  {
    hide Loop;
    var v1 := Move(v, LoopAct(v.ctl, '>'));
    assert v1.mk == Marks([Skip(7), Verbatim(m)], SKIP, n + 1, 0, 7 + m, 8 + m + n, 0);
    var v2 := Move(v1, EndAct(v1.ctl));
    assert [Skip(7), Verbatim(m)] + [Skip(n + 1)] == [Skip(7), Verbatim(m), Skip(n + 1)];
    assert Iter(v, ">") == (v2, 1);
    Turn(v, ">", v2, 1, "");
    LoopNil(v2);
  }

  lemma EndFinishes(w: Vep, code: seq<Instr>, n: nat)
    requires w.ctl.f.esi_found && !w.ctl.f.dead && w.mk == Marks(code, VERBATIM, 0, 0, n, n, 0) && code != []
    ensures Finish(EndPiece(w)) == Some(code)
  {
  }

  lemma EndWhole(v: Vep)
    requires Ending(v) && v.mk == Marks([Skip(7)], VERBATIM, 0, 2, 7, 7, 0)
    ensures Finish(Parse(v, "<b>>")) == Some([Skip(7), Verbatim(2), Skip(4)])
  {
    hide Loop, Iter, MatchTable, EndPiece, Finish;
    NotAKeyword(">>");
    var w := TagBetween(v, ">>");
    assert "<b>>" == ['<', 'b'] + ">>" && ['b'] + ">>" == "b>>";
    var u := TagPassed(w);
    EndSkips(u, 2, 3);
    EndFinishes(Loop(u, ">"), [Skip(7), Verbatim(2), Skip(4)], 13);
  }

  lemma TagPassed(w: Vep) returns (u: Vep)
    requires EndingIn(w, NOTMYTAG)
    ensures Ending(u) && u.mk == Advance(w.mk, 2) && Loop(w, "b>>") == Loop(u, ">")
  {
    hide Loop;
    u := Vep(w.ctl.(state := NEXTTAG, f := w.ctl.f.(loose := true)), Advance(w.mk, 2));
    assert "b>>"[1..] == ">>" && "b>>"[2..] == ">";
    assert Iter(Vep(w.ctl, Advance(w.mk, 1)), ">>") == (u, 1);
    assert Iter(w, "b>>") == (u, 2);
    Turn(w, "b>>", u, 2, ">");
  }

  lemma EndCut(v: Vep)
    requires Ending(v) && v.mk == Marks([Skip(7)], VERBATIM, 0, 2, 7, 7, 0)
    ensures Finish(Parse(Parse(v, "<b>"), ">")) == Some([Skip(7), Verbatim(5), Skip(1)])
  {
    hide Loop, Iter, MatchTable, Finish;
    NotAKeyword(">");
    var w := TagBetween(v, ">");
    assert "<b>" == ['<', 'b'] + ">" && ['b'] + ">" == "b>";
    var u := TagMarked(w);
    EndSkips(u, 5, 0);
    EndFinishes(Loop(u, ">"), [Skip(7), Verbatim(5), Skip(1)], 13);
  }

  lemma TagMarked(w: Vep) returns (u: Vep)
    requires EndingIn(w, NOTMYTAG)
    ensures Ending(u) && u.mk == MarkCommon(Advance(w.mk, 2), VERBATIM) && Loop(w, "b>") == u
  {
    hide Loop;
    u := Vep(w.ctl.(state := NEXTTAG, f := w.ctl.f.(loose := true)), MarkCommon(Advance(w.mk, 2), VERBATIM));
    assert "b>"[1..] == ">" && "b>"[2..] == "";
    assert Iter(Vep(w.ctl, Advance(w.mk, 1)), ">") == (u, 1);
    assert Iter(w, "b>") == (u, 2);
    Turn(w, "b>", u, 2, "");
    LoopNil(u);
  }

  /** Cutting a document after a tag inside the end of an ESI comment changes what is sent of it: the
      place in "-->" survives the tag, so the tag is skipped with the end unless it was already marked. */
  lemma TagInCommentEndDependsOnCut(url: string)
    ensures var a, b := ["<!--esi--", "<b>>"], ["<!--esi--", "<b>", ">"];
      && AllNonEmpty(a) && AllNonEmpty(b) && Flat(a) == Flat(b)
      && Finish(Feed(Init(url), a)) == Some([Skip(7), Verbatim(2), Skip(4)])
      && Finish(Feed(Init(url), b)) == Some([Skip(7), Verbatim(5), Skip(1)])
  {
    hide Parse, Finish;
    OpenEsiComment(url);
    var v := Parse(Init(url), "<!--esi--");
    EndWhole(v);
    EndCut(v);
    var a, b := ["<!--esi--", "<b>>"], ["<!--esi--", "<b>", ">"];
    assert a[1..] == ["<b>>"] && b[1..] == ["<b>", ">"];
    FeedTwo(Init(url), "<!--esi--", "<b>>");
    FeedTwo(v, "<b>", ">");
    assert Flat(a) == "<!--esi--" + "<b>>" && Flat(b[1..]) == "<b>" + ">";
  }
}
