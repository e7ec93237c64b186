/** What the parser makes of the bytes of a tag, one construct at a time. */
module EsiTags {
  import opened Wrappers
  import opened Vct
  import opened EsiMarks
  import opened EsiStep
  import opened EsiParse
  import opened EsiSplit

  // ---- one byte ----

  lemma ByteLoops(v: Vep, b: char)
    requires !v.ctl.f.dead && Loops(v.ctl, b)
    ensures Byte(v, b) == Move(v, LoopAct(v.ctl, b))
  {
  }

  lemma ByteEats(v: Vep, b: char)
    requires !v.ctl.f.dead && !Loops(v.ctl, b) && ExitOne(v.ctl, b).Eaten() != 0
    ensures Byte(v, b) == Move(v, ExitOne(v.ctl, b))
  {
  }

  /** A state that is left without taking the byte. */
  lemma BytePasses(v: Vep, b: char)
    requires !v.ctl.f.dead && !Loops(v.ctl, b) && ExitOne(v.ctl, b).Eaten() == 0 && !ExitOne(v.ctl, b).ctl.f.dead
    ensures Byte(v, b) == Byte(Move(v, ExitOne(v.ctl, b)), b)
  {
  }

  lemma BytesFirst(v: Vep, b: char, s: string)
    ensures Bytes(v, [b] + s) == Bytes(Byte(v, b), s)
  {
    assert ([b] + s)[0] == b && ([b] + s)[1..] == s;
  }

  lemma BytesOne(v: Vep, b: char)
    ensures Bytes(v, [b]) == Byte(v, b)
  {
    BytesFirst(v, b, []);
    assert [b] + [] == [b];
  }

  lemma BytesPass(v: Vep, s: string)
    requires s != [] && !v.ctl.f.dead && !Loops(v.ctl, s[0])
    requires ExitOne(v.ctl, s[0]).Eaten() == 0 && !ExitOne(v.ctl, s[0]).ctl.f.dead
    ensures Bytes(v, s) == Bytes(Move(v, ExitOne(v.ctl, s[0])), s)
  {
    BytePasses(v, s[0]);
  }

  /** Bytes that a state takes without noticing them. */
  lemma {:induction false} BytesSkim(v: Vep, u: string)
    requires !v.ctl.f.dead
    requires forall i :: 0 <= i < |u| ==> Loops(v.ctl, u[i]) && LoopAct(v.ctl, u[i]) == Eat(v.ctl, 1)
    ensures Bytes(v, u) == Vep(v.ctl, Advance(v.mk, |u|))
    decreases |u|
  {
    hide Byte, Loops, LoopAct;
    if u != [] {
      ByteLoops(v, u[0]);
      BytesSkim(Vep(v.ctl, Advance(v.mk, 1)), u[1..]);
    }
  }

  // ---- keywords ----

  lemma OneShorter(text: string, u: string, x: char)
    ensures u + [x] <= text ==> u <= text && !(text <= u)
    ensures text <= u ==> text <= u + [x]
  {
    if u + [x] <= text { assert u == (u + [x])[..|u|] == text[..|u|]; }
    if text <= u { assert (u + [x])[..|text|] == u[..|text|]; }
  }

  lemma MoreShorter(t: Table, u: string, x: char)
    requires MatchTable(t, u + [x]).More?
    ensures MatchTable(t, u).More?
  {
    match t
    case NoTable =>
    case StartTable => OneShorter("!--", u, x); OneShorter("esi:", u, x); OneShorter("![CDATA[", u, x);
    case EsiTable => OneShorter("include", u, x); OneShorter("remove", u, x); OneShorter("comment", u, x);
    case IncludeTable => OneShorter("src=", u, x);
  }

  /** The first bytes of a keyword are put aside. */
  lemma {:induction false} Buffering(v: Vep, u: string)
    requires Unfinished(v, u)
    ensures Bytes(v, u) == Buffered(v, u)
    decreases |u|
  {
    hide Byte, MatchTable, Loops, LoopAct;
    var u', x := u[..|u| - 1], u[|u| - 1];
    assert u == u' + [x];
    if u' == [] {
      assert u == [x];
      PutAside(v, x);
      BytesOne(v, x);
    } else {
      MoreShorter(v.ctl.match_tbl, u', x);
      Buffering(v, u');
      BytesJoin(v, u', [x]);
      BytesOne(Buffered(v, u'), x);
      UnfinishedKeyword(v.ctl.match_tbl, u);
      BufferMore(v, u', x);
      ByteLoops(Buffered(v, u'), x);
    }
  }

  /** A whole keyword leads to the state of its entry. */
  lemma KeywordTaken(v: Vep, u: string, x: char, st: State)
    requires Unfinished(v, u) && MatchTable(v.ctl.match_tbl, u + [x]).Hit? && x != '>'
    requires MatchTable(v.ctl.match_tbl, u + [x]).state == st
    ensures Bytes(v, u + [x]) == Vep(Enter(v.ctl, st), Advance(v.mk, |u| + 1))
  {
    hide Byte, MatchTable;
    Buffering(v, u);
    BytesJoin(v, u, [x]);
    BytesOne(Buffered(v, u), x);
    BufferHit(v, u, x, st);
  }

  lemma BufferHit(v: Vep, u: string, x: char, st: State)
    requires Unfinished(v, u) && MatchTable(v.ctl.match_tbl, u + [x]).Hit? && x != '>'
    requires MatchTable(v.ctl.match_tbl, u + [x]).state == st
    ensures Byte(Buffered(v, u), x) == Vep(Enter(v.ctl, st), Advance(v.mk, |u| + 1))
  {
    hide MatchTable;
    ByteEats(Buffered(v, u), x);
  }

  lemma StartWords()
    ensures MatchTable(StartTable, "!-").More? && MatchTable(StartTable, "!-" + ['-']) == Hit(3, COMMENT)
    ensures MatchTable(StartTable, "esi").More? && MatchTable(StartTable, "esi" + [':']) == Hit(4, ESITAG)
    ensures MatchTable(StartTable, "![CDATA").More? && MatchTable(StartTable, "![CDATA" + ['[']) == Hit(8, CDATA)
  {
    assert "!-" + ['-'] == "!--" && "esi" + [':'] == "esi:" && "![CDATA" + ['['] == "![CDATA[";
    assert "!-" == "!--"[..2] && "esi" == "esi:"[..3] && "![CDATA" == "![CDATA["[..7];
    assert "esi"[0] != "!--"[0] && "![CDATA"[1] != "!--"[1] && "![CDATA"[0] != "esi:"[0];
    assert "esi:"[0] != "!--"[0] && "![CDATA["[1] != "!--"[1] && "![CDATA["[0] != "esi:"[0];
  }

  lemma EsiWords()
    ensures MatchTable(EsiTable, "includ").More? && MatchTable(EsiTable, "includ" + ['e']) == Hit(7, ESIINCLUDE)
    ensures MatchTable(EsiTable, "remov").More? && MatchTable(EsiTable, "remov" + ['e']) == Hit(6, ESIREMOVE)
    ensures MatchTable(EsiTable, "commen").More? && MatchTable(EsiTable, "commen" + ['t']) == Hit(7, ESICOMMENT)
    ensures MatchTable(IncludeTable, "src").More? && MatchTable(IncludeTable, "src" + ['=']) == Hit(4, ATTRGETVAL)
  {
    assert "includ" + ['e'] == "include" && "remov" + ['e'] == "remove" && "commen" + ['t'] == "comment";
    assert "src" + ['='] == "src=" && "src" == "src="[..3];
    assert "includ" == "include"[..6] && "remov" == "remove"[..5] && "commen" == "comment"[..6];
    assert "remov"[0] != "include"[0] && "commen"[0] != "include"[0] && "commen"[0] != "remove"[0];
    assert "remove"[0] != "include"[0] && "comment"[0] != "include"[0] && "comment"[0] != "remove"[0];
  }

  // ---- tags that are not ESI's ----

  /** No keyword of the parser stands at the front. */
  predicate KeywordFree(t: string) { !("!--" <= t) && !("esi:" <= t) && !("![CDATA[" <= t) }

  /** What is inside the angle brackets, but for the slash of an end tag. */
  function TagText(t: string): string { if t != [] && t[0] == '/' then t[1..] else t }

  predicate PlainTag(t: string) { '>' !in t && KeywordFree(TagText(t)) }

  /** The parser behind the '<' of a tag. */
  function Opened(c: Ctl): Ctl {
    ResetTag(c).(state := STARTTAG, f := ResetTag(c).f.(loose := false))
  }

  lemma OpenAngle(v: Vep)
    requires v.ctl.state == NEXTTAG && !v.ctl.f.dead
    ensures Byte(v, '<')
      == Vep(Opened(v.ctl), Advance(if v.ctl.f.remove then v.mk else MarkCommon(v.mk, VERBATIM), 1))
  {
    ByteEats(v, '<');
    hide MarkCommon;
    assert Advance(v.mk, 0) == v.mk;
  }

  lemma NotMyTag(v: Vep, t: string)
    requires v.ctl.state == NOTMYTAG && !v.ctl.f.dead && '>' !in t
    ensures Bytes(v, t + ">") == Vep(Loosen(v.ctl.(state := NEXTTAG)), Advance(v.mk, |t| + 1))
  {
    BytesSkim(v, t);
    BytesJoin(v, t, ">");
    BytesOne(Vep(v.ctl, Advance(v.mk, |t|)), '>');
    ByteEats(Vep(v.ctl, Advance(v.mk, |t|)), '>');
    hide Bytes, Byte;
  }

  /** The parser after the bytes `q`, which begin a keyword, or none. */
  function Aside(v: Vep, q: string): Vep { if q == [] then v else Buffered(v, q) }

  lemma {:induction false} NoKeyword(v: Vep, q: string, rest: string)
    requires v.ctl.state == MATCH && v.ctl.match_tbl.StartTable? && !v.ctl.f.dead
    requires q == [] || MatchTable(StartTable, q).More?
    requires KeywordFree(q + rest) && '>' !in rest
    ensures Bytes(Aside(v, q), rest + ">")
      == Vep(Loosen(Enter(v.ctl, NEXTTAG)), Advance(v.mk, |q| + |rest| + 1))
    decreases |rest|
  {
    hide Byte, MatchTable, Loops, Loosen, ExitOne, Bytes;
    var w := Aside(v, q);
    var s := rest + ">";
    var x := s[0];
    if x == '>' { if q == [] { EndIsNoKeyword(); } else { TagEndMisses(StartTable, q); } }
    if MatchTable(StartTable, q + [x]).More? {
      assert x != '>' && s == [x] + (rest[1..] + ">") && q + rest == q + [x] + rest[1..];
      TakeAside(v, q, x);
      BytesFirst(w, x, rest[1..] + ">");
      NoKeyword(v, q + [x], rest[1..]);
    } else {
      if x != '>' {
        assert q + rest == q + [x] + rest[1..];
        FreeIsNoHit(q + [x], rest[1..]);
      }
      LeaveKeyword(v, q, s);
      NotMyTag(Vep(Enter(v.ctl, NOTMYTAG), Advance(v.mk, |q|)), rest);
    }
  }

  lemma EndIsNoKeyword()
    ensures MatchTable(StartTable, [] + ['>']).Miss?
  {
    assert [] + ['>'] == ['>'];
    assert "!--"[0] != '>' && "esi:"[0] != '>' && "![CDATA["[0] != '>';
  }

  lemma FreeIsNoHit(u: string, rest: string)
    requires KeywordFree(u + rest)
    ensures !MatchTable(StartTable, u).Hit?
  {
    PrefixOfMore("!--", u, rest);
    PrefixOfMore("esi:", u, rest);
    PrefixOfMore("![CDATA[", u, rest);
  }

  lemma PrefixOfMore(text: string, u: string, rest: string)
    ensures text <= u ==> text <= u + rest
  {
    if text <= u { assert (u + rest)[..|text|] == u[..|text|]; }
  }

  lemma TakeAside(v: Vep, q: string, x: char)
    requires v.ctl.state == MATCH && !v.ctl.f.dead && (q == [] || MatchTable(v.ctl.match_tbl, q).More?)
    requires MatchTable(v.ctl.match_tbl, q + [x]).More? && x != '>'
    ensures Byte(Aside(v, q), x) == Buffered(v, q + [x])
  {
    hide Byte, MatchTable;
    if q == [] {
      assert q + [x] == [x];
      PutAside(v, x);
    } else {
      BufferMore(v, q, x);
      ByteLoops(Buffered(v, q), x);
    }
  }

  /** The byte that shows that no keyword comes about is looked at again in the default state. */
  lemma LeaveKeyword(v: Vep, q: string, s: string)
    requires v.ctl.state == MATCH && !v.ctl.f.dead && (q == [] || MatchTable(v.ctl.match_tbl, q).More?)
    requires s != [] && MatchTable(v.ctl.match_tbl, q + [s[0]]).Miss?
    ensures Bytes(Aside(v, q), s) == Bytes(Vep(Enter(v.ctl, Default(v.ctl.match_tbl)), Advance(v.mk, |q|)), s)
  {
    hide MatchTable, Byte, Bytes;
    assert q == [] ==> q + [s[0]] == [s[0]];
    assert Advance(v.mk, 0) == v.mk;
    BytesPass(Aside(v, q), s);
  }

  /** The parser about to look for a keyword, in a tag or an end tag. */
  function AtWord(c: Ctl, close: bool): Ctl {
    var d := c.(match_tbl := StartTable, state := MATCH);
    if close then d.(f := c.f.(endtag := true)) else d
  }

  /** A tag, or end tag, that means nothing to the parser, from behind its '<'. */
  lemma PlainTagTaken(v: Vep, t: string)
    requires v.ctl.state == STARTTAG && !v.ctl.f.dead && PlainTag(t)
    ensures var close := t != [] && t[0] == '/';
      Bytes(v, t + ">") == Vep(Loosen(Enter(AtWord(v.ctl, close), NEXTTAG)), Advance(v.mk, |t| + 1))
  {
    hide Byte, MatchTable, Bytes, Loosen, KeywordFree;
    if t != [] && t[0] == '/' {
      assert t + ">" == ['/'] + (t[1..] + ">");
      SlashTaken(v);
      BytesFirst(v, '/', t[1..] + ">");
      assert [] + t[1..] == t[1..];
      NoKeyword(Vep(AtWord(v.ctl, true), Advance(v.mk, 1)), [], t[1..]);
    } else {
      ToMatch(v, t + ">");
      assert [] + t == t;
      NoKeyword(Vep(AtWord(v.ctl, false), v.mk), [], t);
    }
  }

  lemma SlashTaken(v: Vep)
    requires v.ctl.state == STARTTAG && !v.ctl.f.dead
    ensures Byte(v, '/') == Vep(AtWord(v.ctl, true), Advance(v.mk, 1))
  {
    ByteEats(v, '/');
  }

  lemma ToMatch(v: Vep, s: string)
    requires v.ctl.state == STARTTAG && !v.ctl.f.dead && s != [] && s[0] != '/'
    ensures Bytes(v, s) == Bytes(Vep(AtWord(v.ctl, false), v.mk), s)
  {
    hide Byte, Bytes;
    assert Advance(v.mk, 0) == v.mk;
    BytesPass(v, s);
  }

  // ---- the head of an ESI tag ----

  function Slash(close: bool): string { if close then "/" else "" }

  /** The parser behind the keyword of an ESI tag. */
  function EsiTagged(c: Ctl, close: bool, st: State): Ctl {
    var d := AtWord(c, close);
    Enter(d, st).(f := d.f.(in_esi_tag := true, esi_found := true))
  }

  lemma EsiHead(v: Vep, close: bool, u: string, x: char, st: State)
    requires v.ctl.state == STARTTAG && !v.ctl.f.dead && v.ctl.tag == ""
    requires u != [] && MatchTable(EsiTable, u).More? && MatchTable(EsiTable, u + [x]).Hit? && x != '>'
    requires MatchTable(EsiTable, u + [x]).state == st
    ensures Bytes(v, Slash(close) + "esi:" + (u + [x])) ==
      Vep(EsiTagged(v.ctl, close, st), Advance(MarkCommon(Advance(v.mk, |Slash(close)| + 4), SKIP), |u| + 1))
  {
    hide Byte, MatchTable, Bytes, MarkCommon;
    var w := Vep(AtWord(v.ctl, close), Advance(v.mk, |Slash(close)|));
    StartWords();
    BytesJoin(v, Slash(close) + "esi:", u + [x]);
    EsiColon(v, close);
    EsiBegins(Vep(Enter(w.ctl, ESITAG), Advance(v.mk, |Slash(close)| + 4)), u, x, st);
  }

  lemma EsiColon(v: Vep, close: bool)
    requires v.ctl.state == STARTTAG && !v.ctl.f.dead
    ensures Bytes(v, Slash(close) + "esi:")
      == Vep(Enter(AtWord(v.ctl, close), ESITAG), Advance(v.mk, |Slash(close)| + 4))
  {
    hide Byte, MatchTable, Bytes;
    var w := Vep(AtWord(v.ctl, close), Advance(v.mk, |Slash(close)|));
    StartWords();
    assert "esi" + [':'] == "esi:";
    if close {
      assert Slash(close) + "esi:" == ['/'] + "esi:";
      BytesFirst(v, '/', "esi:");
      SlashTaken(v);
    } else {
      assert Slash(close) + "esi:" == "esi:" && Advance(v.mk, 0) == v.mk;
      ToMatch(v, "esi:");
    }
    KeywordTaken(w, "esi", ':', ESITAG);
  }

  lemma EsiBegins(v: Vep, u: string, x: char, st: State)
    requires v.ctl.state == ESITAG && !v.ctl.f.dead
    requires u != [] && MatchTable(EsiTable, u).More? && MatchTable(EsiTable, u + [x]).Hit? && x != '>'
    requires MatchTable(EsiTable, u + [x]).state == st
    ensures Bytes(v, u + [x]) ==
      Vep(Enter(v.ctl, st).(f := v.ctl.f.(in_esi_tag := true, esi_found := true)),
          Advance(MarkCommon(v.mk, SKIP), |u| + 1))
  {
    hide Byte, MatchTable, Bytes, MarkCommon;
    assert Advance(v.mk, 0) == v.mk && Advance(MarkCommon(v.mk, SKIP), 0) == MarkCommon(v.mk, SKIP);
    BytesPass(v, u + [x]);
    var c := v.ctl.(f := v.ctl.f.(in_esi_tag := true, esi_found := true), match_tbl := EsiTable, state := MATCH);
    KeywordTaken(Vep(c, MarkCommon(v.mk, SKIP)), u, x, st);
  }

  // ---- attributes ----

  /** The value stands between quotes; one without is followed by a blank, which then is the `quote`. */
  datatype Attr = Attr(name: string, quote: char, value: string)

  function OpenQuote(a: Attr): string { if a.quote == ' ' then "" else [a.quote] }

  function Quoted(a: Attr): string { OpenQuote(a) + (a.value + [a.quote]) }

  function AttrText(a: Attr): string { [' '] + (a.name + "=" + Quoted(a)) }

  predicate IsQuote(c: char) { c == '"' || c == '\'' }

  predicate GoodAttr(a: Attr) {
    && a.name != [] && IsXmlNameStart(a.name[0]) && (forall i :: 0 <= i < |a.name| ==> IsXmlName(a.name[i]))
    && a.quote !in a.value && '>' !in a.value
    && (IsQuote(a.quote)
        || (a.quote == ' ' && a.value != [] && !IsQuote(a.value[0])
            && forall i :: 0 <= i < |a.value| ==> !IsSp(a.value[i])))
  }

  /** The parser inside an ESI tag, between attributes. */
  predicate InAttrs(c: Ctl) {
    && c.state == INTAG && !c.f.dead && !c.f.emptytag && c.match_tbl == NoTable && c.tag == ""
    && c.a.attr_vsb == None && c.a.attr_delim == '\0' && (c.a.attr ==> c.a.dostuff.DoInclude?)
  }

  /** What an attribute leaves behind. */
  function WithAttr(c: Ctl, a: Attr): Ctl {
    c.(f := c.f.(canattr := true),
       a := if c.a.attr && a.name == "src" then c.a.(include_src := Some(a.value)) else c.a)
  }

  lemma AttrTaken(v: Vep, a: Attr)
    requires InAttrs(v.ctl) && GoodAttr(a) && (v.ctl.a.attr && a.name == "src" ==> v.ctl.a.include_src == None)
    ensures Bytes(v, AttrText(a)) == Vep(WithAttr(v.ctl, a), Advance(v.mk, |AttrText(a)|))
    ensures InAttrs(WithAttr(v.ctl, a))
  {
    hide Byte, MatchTable, Bytes, Loops, LoopAct;
    var quoted := Quoted(a);
    var tail := a.name + "=" + quoted;
    var v1 := Vep(v.ctl.(f := v.ctl.f.(canattr := true)), Advance(v.mk, 1));
    BytesFirst(v, ' ', tail);
    SpaceTaken(v);
    BytesJoin(v1, a.name + "=", quoted);
    if v.ctl.a.attr && a.name == "src" {
      SrcName(v1);
      assert a.name + "=" == "src=";
      SrcValue(Vep(v1.ctl.(state := ATTRGETVAL), Advance(v1.mk, 4)), a);
    } else {
      OtherName(v1, a.name);
      OtherValue(Vep(v1.ctl.(state := ATTRDELIM), Advance(v1.mk, |a.name| + 1)), a);
    }
  }

  lemma SpaceTaken(v: Vep)
    requires InAttrs(v.ctl)
    ensures Byte(v, ' ') == Vep(v.ctl.(f := v.ctl.f.(canattr := true)), Advance(v.mk, 1))
  {
    ByteLoops(v, ' ');
  }

  lemma ToAttr(v: Vep, s: string)
    requires InAttrs(v.ctl) && v.ctl.f.canattr && s != [] && IsXmlNameStart(s[0])
    ensures Bytes(v, s) == Bytes(Vep(v.ctl.(state := ATTR), v.mk), s)
  {
    hide Byte, Bytes;
    assert Advance(v.mk, 0) == v.mk;
    BytesPass(v, s);
  }

  lemma ToAttrMatch(v: Vep, s: string)
    requires v.ctl.state == ATTR && !v.ctl.f.dead && v.ctl.a.attr && s != []
    ensures Bytes(v, s) == Bytes(Vep(v.ctl.(match_tbl := IncludeTable, state := MATCH), v.mk), s)
  {
    hide Byte, Bytes;
    assert Advance(v.mk, 0) == v.mk;
    BytesPass(v, s);
  }

  lemma SrcName(v: Vep)
    requires InAttrs(v.ctl) && v.ctl.f.canattr && v.ctl.a.attr
    ensures Bytes(v, "src=") == Vep(v.ctl.(state := ATTRGETVAL), Advance(v.mk, 4))
  {
    hide Byte, Bytes, MatchTable;
    EsiWords();
    ToAttr(v, "src=");
    ToAttrMatch(Vep(v.ctl.(state := ATTR), v.mk), "src=");
    assert "src" + ['='] == "src=";
    KeywordTaken(Vep(v.ctl.(match_tbl := IncludeTable, state := MATCH), v.mk), "src", '=', ATTRGETVAL);
  }

  lemma OtherName(v: Vep, name: string)
    requires InAttrs(v.ctl) && v.ctl.f.canattr && name != [] && IsXmlNameStart(name[0])
    requires forall i :: 0 <= i < |name| ==> IsXmlName(name[i])
    requires v.ctl.a.attr ==> name != "src"
    ensures Bytes(v, name + "=") == Vep(v.ctl.(state := ATTRDELIM), Advance(v.mk, |name| + 1))
  {
    hide Byte, Bytes, MatchTable, IsXmlName, IsXmlNameStart, Loops;
    ToAttr(v, name + "=");
    var w := Vep(v.ctl.(state := ATTR), v.mk);
    if v.ctl.a.attr {
      ToAttrMatch(w, name + "=");
      assert [] + name == name;
      NotSrc(Vep(v.ctl.(match_tbl := IncludeTable, state := MATCH), v.mk), [], name);
    } else {
      SkipFirst(w, name[0]);
      assert name + "=" == [name[0]] + (name[1..] + "=");
      BytesFirst(w, name[0], name[1..] + "=");
      SkipName(Vep(v.ctl.(state := SKIPATTR), Advance(v.mk, 1)), name[1..]);
    }
  }

  lemma SkipFirst(v: Vep, b: char)
    requires v.ctl.state == ATTR && !v.ctl.f.dead && !v.ctl.a.attr && v.ctl.a.attr_vsb == None
    ensures Byte(v, b) == Vep(v.ctl.(state := SKIPATTR), Advance(v.mk, 1))
  {
    ByteEats(v, b);
  }

  lemma SkipName(v: Vep, name: string)
    requires v.ctl.state == SKIPATTR && !v.ctl.f.dead && forall i :: 0 <= i < |name| ==> IsXmlName(name[i])
    ensures Bytes(v, name + "=") == Vep(v.ctl.(state := ATTRDELIM), Advance(v.mk, |name| + 1))
  {
    BytesSkim(v, name);
    BytesJoin(v, name, "=");
    BytesOne(Vep(v.ctl, Advance(v.mk, |name|)), '=');
    ByteEats(Vep(v.ctl, Advance(v.mk, |name|)), '=');
    hide Bytes, Byte;
  }

  /** A name that is not "src", though it may begin like it. */
  lemma {:induction false} NotSrc(v: Vep, q: string, rest: string)
    requires v.ctl.state == MATCH && v.ctl.match_tbl.IncludeTable? && !v.ctl.f.dead
    requires q == [] || MatchTable(IncludeTable, q).More?
    requires q + rest != "src" && q + rest != [] && forall i :: 0 <= i < |rest| ==> IsXmlName(rest[i])
    ensures Bytes(Aside(v, q), rest + "=") == Vep(Enter(v.ctl, ATTRDELIM), Advance(v.mk, |q| + |rest| + 1))
    decreases |rest|
  {
    hide Byte, MatchTable, Loops, ExitOne, Bytes;
    var s := rest + "=";
    var x := s[0];
    if MatchTable(IncludeTable, q + [x]).More? {
      if rest == [] { SrcEnds(q); }
      assert s == [x] + (rest[1..] + "=") && q + rest == q + [x] + rest[1..];
      XmlNameIsNoEnd(x);
      TakeAside(v, q, x);
      BytesFirst(Aside(v, q), x, rest[1..] + "=");
      NotSrc(v, q + [x], rest[1..]);
    } else {
      NoSrcHit(q, x, rest);
      LeaveKeyword(v, q, s);
      SkipName(Vep(Enter(v.ctl, SKIPATTR), Advance(v.mk, |q|)), rest);
    }
  }

  lemma XmlNameIsNoEnd(x: char)
    requires IsXmlName(x)
    ensures x != '>' && x != '='
  {
  }

  lemma SrcEnds(q: string)
    ensures !MatchTable(IncludeTable, q + ['=']).More?
  {
    if q + ['='] <= "src=" {
      assert (q + ['='])[|q|] == '=' == "src="[|q|];
      assert |q| == 3;
      assert "src=" == q + ['='];
    }
  }

  lemma NoSrcHit(q: string, x: char, rest: string)
    requires (rest + "=")[0] == x && q + rest != "src" && (q == [] || MatchTable(IncludeTable, q).More?)
    requires forall i :: 0 <= i < |rest| ==> IsXmlName(rest[i])
    ensures !MatchTable(IncludeTable, q + [x]).Hit?
  {
    assert rest == [] ==> q + rest == q;
    ShortOfSrc(q);
    if "src=" <= q + [x] { SrcHit(q, x); }
  }

  lemma ShortOfSrc(q: string)
    requires q == [] || MatchTable(IncludeTable, q).More?
    ensures |q| <= 3
  {
    if q <= "src=" && |q| == 4 { SameLength("src=", q); }
  }

  lemma SrcHit(q: string, x: char)
    requires "src=" <= q + [x] && |q| <= 3
    ensures q == "src" && x == '='
  {
    assert q + [x] == "src=";
    assert q == (q + [x])[..3];
  }

  // ---- values ----

  /** Where a value begins, with a quote or without. */
  lemma DelimTaken(v: Vep, a: Attr)
    requires v.ctl.state == ATTRDELIM && !v.ctl.f.dead && GoodAttr(a)
    ensures Bytes(v, Quoted(a)) ==
      Bytes(Vep(v.ctl.(a := v.ctl.a.(attr_delim := a.quote), state := ATTRVAL), Advance(v.mk, |OpenQuote(a)|)),
            a.value + [a.quote])
  {
    hide Byte, Bytes;
    var s := a.value + [a.quote];
    if a.quote == ' ' {
      assert Quoted(a) == s && Advance(v.mk, 0) == v.mk;
      BytesPass(v, s);
    } else {
      ByteEats(v, a.quote);
      BytesFirst(v, a.quote, s);
    }
  }

  /** The value of an attribute that is not wanted. */
  lemma OtherValue(v: Vep, a: Attr)
    requires v.ctl.state == ATTRDELIM && !v.ctl.f.dead && GoodAttr(a)
    requires v.ctl.a.attr_vsb == None && v.ctl.a.attr_delim == '\0'
    ensures Bytes(v, Quoted(a)) == Vep(v.ctl.(state := INTAG), Advance(v.mk, |Quoted(a)|))
  {
    hide Byte, Bytes;
    var w := Vep(v.ctl.(a := v.ctl.a.(attr_delim := a.quote), state := ATTRVAL), Advance(v.mk, |OpenQuote(a)|));
    DelimTaken(v, a);
    BytesSkim(w, a.value);
    BytesJoin(w, a.value, [a.quote]);
    var u := Vep(w.ctl, Advance(w.mk, |a.value|));
    BytesOne(u, a.quote);
    ByteEats(u, a.quote);
  }

  /** A byte that does not end the value. */
  predicate InValue(delim: char, b: char) { b != '>' && b != delim && (delim != ' ' || !IsSp(b)) }

  lemma {:induction false} Gathered(v: Vep, s: string)
    requires v.ctl.state == ATTRVAL && !v.ctl.f.dead && v.ctl.a.attr_vsb.Some?
    requires forall i :: 0 <= i < |s| ==> InValue(v.ctl.a.attr_delim, s[i])
    ensures Bytes(v, s)
      == Vep(v.ctl.(a := v.ctl.a.(attr_vsb := Some(v.ctl.a.attr_vsb.value + s))), Advance(v.mk, |s|))
    decreases |s|
  {
    hide Byte;
    if s == [] {
      assert v.ctl.a.attr_vsb.value + s == v.ctl.a.attr_vsb.value;
    } else {
      GatherOne(v, s[0]);
      Gathered(Byte(v, s[0]), s[1..]);
      assert v.ctl.a.attr_vsb.value + s == v.ctl.a.attr_vsb.value + [s[0]] + s[1..];
    }
  }

  lemma GatherOne(v: Vep, b: char)
    requires v.ctl.state == ATTRVAL && !v.ctl.f.dead && v.ctl.a.attr_vsb.Some? && InValue(v.ctl.a.attr_delim, b)
    ensures Byte(v, b)
      == Vep(v.ctl.(a := v.ctl.a.(attr_vsb := Some(v.ctl.a.attr_vsb.value + [b]))), Advance(v.mk, 1))
  {
    ByteLoops(v, b);
  }

  lemma ToGetVal(v: Vep, s: string)
    requires v.ctl.state == ATTRGETVAL && !v.ctl.f.dead && s != []
    ensures Bytes(v, s) == Bytes(Vep(v.ctl.(a := v.ctl.a.(attr_vsb := Some("")), state := ATTRDELIM), v.mk), s)
  {
    hide Byte, Bytes;
    assert Advance(v.mk, 0) == v.mk;
    BytesPass(v, s);
  }

  /** The value of src is kept for the end of the tag. */
  lemma SrcValue(v: Vep, a: Attr)
    requires v.ctl.state == ATTRGETVAL && !v.ctl.f.dead && GoodAttr(a) && v.ctl.a.dostuff.DoInclude?
    requires v.ctl.a.attr_vsb == None && v.ctl.a.attr_delim == '\0' && v.ctl.a.include_src == None
    ensures Bytes(v, Quoted(a))
      == Vep(v.ctl.(state := INTAG, a := v.ctl.a.(include_src := Some(a.value))), Advance(v.mk, |Quoted(a)|))
  {
    hide Byte, Bytes;
    ToGetVal(v, Quoted(a));
    var v0 := Vep(v.ctl.(a := v.ctl.a.(attr_vsb := Some("")), state := ATTRDELIM), v.mk);
    DelimTaken(v0, a);
    var w := Vep(v0.ctl.(a := v0.ctl.a.(attr_delim := a.quote), state := ATTRVAL), Advance(v.mk, |OpenQuote(a)|));
    Gathered(w, a.value);
    BytesJoin(w, a.value, [a.quote]);
    assert "" + a.value == a.value;
    var u := Vep(w.ctl.(a := w.ctl.a.(attr_vsb := Some(a.value))), Advance(w.mk, |a.value|));
    BytesOne(u, a.quote);
    ByteEats(u, a.quote);
  }

  // ---- ESI tags that are none ----

  predicate EsiFree(t: string) { !("include" <= t) && !("remove" <= t) && !("comment" <= t) }

  /** An unknown keyword leads to the state for bogus tags, from which everything up to the end is skipped. */
  lemma {:induction false} NoEsiWord(v: Vep, q: string, rest: string)
    requires v.ctl.state == MATCH && v.ctl.match_tbl.EsiTable? && !v.ctl.f.dead
    requires q == [] || MatchTable(EsiTable, q).More?
    requires EsiFree(q + rest) && '>' !in rest
    ensures Bytes(Aside(v, q), rest + ">") == Bytes(Vep(Enter(v.ctl, TAGERROR), Advance(v.mk, |q| + |rest|)), ">")
    decreases |rest|
  {
    hide Byte, MatchTable, Loops, ExitOne, Bytes;
    var w := Aside(v, q);
    var s := rest + ">";
    var x := s[0];
    if x == '>' { if q == [] { EndIsNoEsiWord(); } else { TagEndMisses(EsiTable, q); } }
    if MatchTable(EsiTable, q + [x]).More? {
      assert x != '>' && s == [x] + (rest[1..] + ">") && q + rest == q + [x] + rest[1..];
      TakeAside(v, q, x);
      BytesFirst(w, x, rest[1..] + ">");
      NoEsiWord(v, q + [x], rest[1..]);
    } else {
      if x != '>' {
        assert q + rest == q + [x] + rest[1..];
        EsiFreeIsNoHit(q + [x], rest[1..]);
      }
      LeaveKeyword(v, q, s);
      BogusSkips(Vep(Enter(v.ctl, ESIBOGON), Advance(v.mk, |q|)), rest);
    }
  }

  lemma EsiWordFails(v: Vep, t: string)
    requires v.ctl.state == MATCH && v.ctl.match_tbl.EsiTable? && !v.ctl.f.dead && EsiFree(t) && '>' !in t
    ensures Bytes(v, t + ">") == Bytes(Vep(Enter(v.ctl, TAGERROR), Advance(v.mk, |t|)), ">")
  {
    hide Byte, Bytes, MatchTable, EsiFree, Enter;
    assert [] + t == t;
    NoEsiWord(v, [], t);
  }

  lemma EndIsNoEsiWord()
    ensures MatchTable(EsiTable, [] + ['>']).Miss?
  {
    assert [] + ['>'] == ['>'];
    assert "include"[0] != '>' && "remove"[0] != '>' && "comment"[0] != '>';
  }

  lemma EsiFreeIsNoHit(u: string, rest: string)
    requires EsiFree(u + rest)
    ensures !MatchTable(EsiTable, u).Hit?
  {
    PrefixOfMore("include", u, rest);
    PrefixOfMore("remove", u, rest);
    PrefixOfMore("comment", u, rest);
  }

  lemma BogusSkips(v: Vep, rest: string)
    requires v.ctl.state == ESIBOGON && !v.ctl.f.dead && '>' !in rest
    ensures Bytes(v, rest + ">") == Bytes(Vep(v.ctl.(state := TAGERROR), Advance(v.mk, |rest|)), ">")
  {
    hide Byte, Bytes;
    assert Advance(v.mk, 0) == v.mk;
    BytesPass(v, rest + ">");
    var w := Vep(v.ctl.(state := TAGERROR), v.mk);
    BytesSkim(w, rest);
    BytesJoin(w, rest, ">");
  }
}
