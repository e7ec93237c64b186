/** The parser object: VEP_parse as it runs, state by state, over a piece of input. */
module EsiVep {
  import opened Wrappers
  import opened Vct
  import opened EsiMarks
  import opened EsiStep
  import opened EsiParse

  // ---- a pass of the outer loop, seen from inside ----

  /** One pass continued inside a loop: at the end of the piece the loop just ends. */
  ghost function IterFrom(v: Vep, s: string): (Vep, nat) {
    if s == [] then (Move(v, EndAct(v.ctl)), 0) else Iter(v, s)
  }

  /** The pass that began with `v0` at `p0` has come to `v` at `p`. */
  ghost predicate Reaches(v0: Vep, s: string, p0: nat, v: Vep, p: nat) {
    && p0 <= p <= |s| && p0 < |s|
    && IterFrom(v0, s[p0..]) == (IterFrom(v, s[p..]).0, IterFrom(v, s[p..]).1 + (p - p0))
  }

  lemma IterFromLoop(v: Vep, s: string)
    requires s != [] && Loops(v.ctl, s[0])
    ensures IterFrom(v, s).0 == IterFrom(Move(v, LoopAct(v.ctl, s[0])), s[1..]).0
    ensures IterFrom(v, s).1 == IterFrom(Move(v, LoopAct(v.ctl, s[0])), s[1..]).1 + 1
  {
  }

  lemma Rest(s: string, p: nat)
    requires p < |s|
    ensures s[p..] != [] && s[p..][0] == s[p] && s[p..][1..] == s[p + 1..] && |s[p..]| == |s| - p
  {
  }

  lemma LoopStep(v0: Vep, s: string, p0: nat, v: Vep, p: nat)
    requires Reaches(v0, s, p0, v, p) && p < |s| && Loops(v.ctl, s[p])
    ensures Reaches(v0, s, p0, Move(v, LoopAct(v.ctl, s[p])), p + 1)
  {
    hide Loops, LoopAct, IterFrom;
    Rest(s, p);
    IterFromLoop(v, s[p..]);
  }

  lemma EndPass(v0: Vep, s: string, p0: nat, v: Vep)
    requires Reaches(v0, s, p0, v, |s|)
    ensures Iter(v0, s[p0..]) == (Move(v, EndAct(v.ctl)), |s| - p0)
  {
  }

  lemma ExitPass(v0: Vep, s: string, p0: nat, v: Vep, p: nat)
    requires Reaches(v0, s, p0, v, p) && p < |s| && !Loops(v.ctl, s[p])
    ensures s[p..] != []
    ensures var a := ExitAct(v.ctl, s[p..]); Iter(v0, s[p0..]) == (Move(v, a), p + a.Eaten() - p0)
  {
    Rest(s, p);
  }

  /** States outside texts mark nothing when the piece ends inside their loops. */
  lemma EndPlain(v0: Vep, s: string, p0: nat, v: Vep)
    requires Reaches(v0, s, p0, v, |s|) && v.ctl.state > UNTIL
    ensures Iter(v0, s[p0..]) == (v, |s| - p0)
  {
    EndPass(v0, s, p0, v);
  }

  lemma OpenPass(v0: Vep, s: string, p0: nat, v: Vep, p: nat)
    requires Reaches(v0, s, p0, v, p) && p < |s| && OpenState(v.ctl.state) && !Loops(v.ctl, s[p])
    ensures var a := ExitOpen(v.ctl, s[p]); Iter(v0, s[p0..]) == (Move(v, a), p + a.Eaten() - p0)
  {
    hide Iter, Loops, ExitOpen;
    Rest(s, p);
    ExitPass(v0, s, p0, v, p);
  }

  ghost predicate InComment(v: Vep) {
    v.ctl.state == COMMENT && !v.ctl.esicmt.text.NoText?
  }

  /** The three ways a byte of a comment can go: not an ESI comment, one byte on, or at its end. */
  lemma CommentMiss(v0: Vep, s: string, p0: nat, v: Vep, p: nat)
    requires Reaches(v0, s, p0, v, p) && p < |s| && InComment(v)
    requires s[p] != At(v.ctl.esicmt.text, v.ctl.esicmt.p)
    ensures var c := v.ctl.(esicmt := Cursor(NoText, 0), until := Cursor(CommentEnd, 0), until_s := NEXTTAG,
                            state := UNTIL, f := v.ctl.f.(astray := v.ctl.f.astray || v.ctl.f.remove));
      Iter(v0, s[p0..]) == (Vep(c, MarkCommon(v.mk, VERBATIM)), p - p0)
  {
    hide Iter;
    OpenPass(v0, s, p0, v, p);
  }

  lemma CommentMore(v0: Vep, s: string, p0: nat, v: Vep, p: nat)
    requires Reaches(v0, s, p0, v, p) && p < |s| && InComment(v)
    requires var k := v.ctl.esicmt; s[p] == At(k.text, k.p) && At(k.text, k.p + 1) != '\0'
    ensures var k := v.ctl.esicmt;
      Reaches(v0, s, p0, Vep(v.ctl.(esicmt := Cursor(k.text, k.p + 1)), Advance(v.mk, 1)), p + 1)
  {
    hide Iter;
    LoopStep(v0, s, p0, v, p);
  }

  lemma CommentDone(v0: Vep, s: string, p0: nat, v: Vep, p: nat)
    requires Reaches(v0, s, p0, v, p) && p < |s| && InComment(v)
    requires var k := v.ctl.esicmt; s[p] == At(k.text, k.p) && At(k.text, k.p + 1) == '\0'
    ensures var c := v.ctl.(esicmt := Cursor(CommentEnd, 0), state := NEXTTAG);
      Iter(v0, s[p0..]) == (Vep(c, MarkCommon(Advance(v.mk, 1), SKIP)), p + 1 - p0)
  {
    hide Iter;
    OpenPass(v0, s, p0, v, p);
  }

  lemma InTagPass(v0: Vep, s: string, p0: nat, v: Vep, p: nat)
    requires Reaches(v0, s, p0, v, p) && p < |s| && v.ctl.state == INTAG && !Loops(v.ctl, s[p])
    ensures var a := ExitInTag(v.ctl, s[p]); Iter(v0, s[p0..]) == (Move(v, a), p + a.Eaten() - p0)
  {
    hide Iter, Loops, ExitInTag;
    Rest(s, p);
    ExitPass(v0, s, p0, v, p);
  }

  lemma AttrPass(v0: Vep, s: string, p0: nat, v: Vep, p: nat)
    requires Reaches(v0, s, p0, v, p) && p < |s| && AttrState(v.ctl.state) && !Loops(v.ctl, s[p])
    ensures var a := ExitAttr(v.ctl, s[p]); Iter(v0, s[p0..]) == (Move(v, a), p + a.Eaten() - p0)
  {
    hide Iter, Loops, ExitAttr;
    Rest(s, p);
    ExitPass(v0, s, p0, v, p);
  }

  lemma MatchBufPass(v0: Vep, s: string, p0: nat, v: Vep, p: nat)
    requires Reaches(v0, s, p0, v, p) && p < |s| && v.ctl.state == MATCHBUF && !Loops(v.ctl, s[p])
    ensures var a := ExitMatchBuf(v.ctl, s[p]); Iter(v0, s[p0..]) == (Move(v, a), p + a.Eaten() - p0)
  {
    hide Iter, Loops, Enter, ExitMatchBuf;
    Rest(s, p);
    ExitPass(v0, s, p0, v, p);
  }

  /** States whose loops change nothing but the place. */
  lemma ScanLoops(c: Ctl, b: char)
    requires c.state in {TESTXML, NOTMYTAG, TAGERROR, SKIPATTR}
    ensures Loops(c, b) <==>
      if c.state == TESTXML then IsLws(b) else if c.state == SKIPATTR then IsXmlName(b) else b != '>'
    ensures LoopAct(c, b) == Eat(c, 1)
  {
  }

  // ---- keyword tables ----

  /** A keyword table: texts and the states they lead to, in the order they are looked at. */
  function Entries(t: Table): seq<(string, State)> {
    match t
    case NoTable => []
    case StartTable => [("!--", COMMENT), ("esi:", ESITAG), ("![CDATA[", CDATA)]
    case EsiTable => [("include", ESIINCLUDE), ("remove", ESIREMOVE), ("comment", ESICOMMENT)]
    case IncludeTable => [("src=", ATTRGETVAL)]
  }

  ghost function Search(es: seq<(string, State)>, s: string): Found {
    if es == [] then Miss else Try(es[0].0, es[0].1, s, Search(es[1..], s))
  }

  lemma SearchThree(x: (string, State), y: (string, State), z: (string, State), s: string)
    ensures Search([x, y, z], s) == Try(x.0, x.1, s, Try(y.0, y.1, s, Try(z.0, z.1, s, Miss)))
  {
    assert [x, y, z][1..] == [y, z] && [y, z][1..] == [z] && [z][1..] == [];
    assert Search([z], s) == Try(z.0, z.1, s, Miss);
    assert Search([y, z], s) == Try(y.0, y.1, s, Search([z], s));
  }

  lemma SearchIsMatchTable(t: Table, s: string)
    ensures Search(Entries(t), s) == MatchTable(t, s)
  {
    match t
    case NoTable =>
    case StartTable => SearchThree(("!--", COMMENT), ("esi:", ESITAG), ("![CDATA[", CDATA), s);
    case EsiTable =>
      SearchThree(("include", ESIINCLUDE), ("remove", ESIREMOVE), ("comment", ESICOMMENT), s);
    case IncludeTable =>
  }

  /** How far a text and the input from `b` agree. */
  method Agree(text: string, s: string, b: nat) returns (n: nat)
    requires b <= |s|
    ensures n <= |text| && b + n <= |s| && s[b..b + n] == text[..n]
    ensures n < |text| && b + n < |s| ==> text[n] != s[b + n]
  {
    n := 0;
    while n < |text| && b + n < |s|
      invariant n <= |text| && b + n <= |s| && s[b..b + n] == text[..n]
    {
      if text[n] != s[b + n] { break; }
      n := n + 1;
    }
  }

  lemma AgreeDecides(text: string, s: string, b: nat, n: nat)
    requires b <= |s| && n <= |text| && b + n <= |s| && s[b..b + n] == text[..n]
    requires n < |text| && b + n < |s| ==> text[n] != s[b + n]
    ensures n == |text| <==> text <= s[b..]
    ensures n < |text| ==> (b + n == |s| <==> s[b..] <= text)
  {
    var u := s[b..];
    assert u[..n] == text[..n];
    if n < |text| && b + n < |s| {
      assert u[n] == s[b + n];
    }
  }

  /** vep_match: the first entry that the input decides, or that needs more input. */
  method VepMatch(t: Table, s: string, b: nat) returns (m: Found)
    requires b <= |s|
    ensures m == MatchTable(t, s[b..])
  {
    SearchIsMatchTable(t, s[b..]);
    var es := Entries(t);
    var i := 0;
    assert es[0..] == es;
    while i < |es|
      invariant i <= |es| && Search(es[i..], s[b..]) == MatchTable(t, s[b..])
    {
      var n := Agree(es[i].0, s, b);
      AgreeDecides(es[i].0, s, b, n);
      assert es[i..][0] == es[i] && es[i..][1..] == es[i + 1..];
      if n < |es[i].0| && b + n == |s| { return More; }
      if n == |es[i].0| { return Hit(n, es[i].1); }
      i := i + 1;
    }
    m := Miss;
  }

  class VepState {
    var ctl: Ctl
    /** The marks; storage from `ver_p` on is not marked yet. */
    var mk: Marks
    var ver_p: nat

    ghost predicate Valid(p: nat) reads this {
      mk.run == 0 && ver_p <= p
    }

    /** The parser as a value, when it stands at `p`. */
    ghost function V(p: nat): Vep
      requires Valid(p)
      reads this
    {
      Vep(ctl, Advance(mk, p - ver_p))
    }

    constructor (url: string)
      ensures Valid(0) && V(0) == Init(url)
    {
      ctl, mk, ver_p := Init(url).ctl, Init(url).mk, 0;
    }

    // ---- marking ----

    method MarkCommonTo(p: nat, mark: Mark)
      requires Valid(p)
      modifies this`mk, this`ver_p
      ensures Valid(p) && V(p) == Vep(ctl, MarkCommon(old(V(p)).mk, mark))
    {
      var l := p - ver_p;
      if mk.last_mark == mark && l == 0 && mk.o_pending == 0 { return; }
      if mk.last_mark != mark && mk.o_wait > 0 {
        var lcb := mk.cb_x;
        if lcb > mk.o_last {
          mk := mk.(code := mk.code + [if mk.last_mark == SKIP then Skip(lcb - mk.o_last)
                                       else Verbatim(lcb - mk.o_last)]);
        }
        mk := mk.(o_last := lcb, o_wait := 0);
      }
      if mk.o_pending > 0 {
        mk := mk.(cb_x := mk.cb_x + mk.o_pending, o_wait := mk.o_wait + mk.o_pending, o_pending := 0);
      }
      ver_p := p;
      mk := mk.(o_wait := mk.o_wait + l, last_mark := mark, cb_x := mk.cb_x + l);
    }

    method MarkPendingTo(p: nat)
      requires Valid(p)
      modifies this`mk, this`ver_p
      ensures Valid(p) && V(p) == Vep(ctl, MarkPending(old(V(p)).mk))
    {
      mk := mk.(o_pending := mk.o_pending + (p - ver_p));
      ver_p := p;
    }

    // ---- one pass of the outer loop, by state ----

    /** What a pass from `p0` to `p` must have done. */
    ghost predicate Passed(v0: Vep, s: string, p0: nat, p: nat)
      requires p0 < |s|
      reads this
    {
      p0 <= p <= |s| && Valid(p) && Iter(v0, s[p0..]) == (V(p), p - p0)
    }

    /** A loop over bytes that changes nothing but the place: it stops at the first byte that the state
        does not take. */
    method Scan(s: string, p0: nat) returns (p: nat)
      requires p0 < |s| && Valid(p0)
      requires ctl.state in {TESTXML, NOTMYTAG, TAGERROR, SKIPATTR}
      ensures p0 <= p && Reaches(V(p0), s, p0, V(p), p)
      ensures p < |s| ==> !Loops(ctl, s[p])
    {
      hide IterFrom, Loops, LoopAct;
      p := p0;
      ghost var v0 := V(p0);
      forall b { ScanLoops(ctl, b); }
      while p < |s| && (if ctl.state == TESTXML then IsLws(s[p])
                        else if ctl.state == SKIPATTR then IsXmlName(s[p])
                        else s[p] != '>')
        invariant p0 <= p && Reaches(v0, s, p0, V(p), p)
      {
        LoopStep(v0, s, p0, V(p), p);
        p := p + 1;
      }
    }

    method TestXml(s: string, p0: nat) returns (p: nat)
      requires p0 < |s| && Valid(p0) && ctl.state == TESTXML
      modifies this
      ensures Passed(old(V(p0)), s, p0, p)
    {
      p := Scan(s, p0);
      ghost var v := V(p);
      if p < |s| { ExitPass(V(p0), s, p0, v, p); Rest(s, p); } else { EndPass(V(p0), s, p0, v); }
      MarkCommonTo(p, VERBATIM);
      if p < |s| && s[p] == '<' {
        p := p + 1;
        ctl := ctl.(state := STARTTAG);
      } else if p < |s| {
        ctl := ctl.(state := NOTXML);
      }
    }

    /** Not XML: the rest of the piece is taken at once. */
    method NotXml(s: string, p0: nat) returns (p: nat)
      requires p0 < |s| && Valid(p0) && ctl.state == NOTXML
      modifies this
      ensures Passed(old(V(p0)), s, p0, p)
    {
      ghost var v := V(p0);
      p := |s|;
      TakesAll(v, s, p0, v, p0);
      EndPass(v, s, p0, V(p));
      MarkCommonTo(p, VERBATIM);
    }

    method NotMyTag(s: string, p0: nat) returns (p: nat)
      requires p0 < |s| && Valid(p0) && ctl.state == NOTMYTAG
      modifies this
      ensures Passed(old(V(p0)), s, p0, p)
    {
      p := Scan(s, p0);
      ghost var v0, v := V(p0), V(p);
      if p < |s| {
        ExitPass(v0, s, p0, v, p);
        Rest(s, p);
        p := p + 1;
        ctl := Loosen(ctl.(state := NEXTTAG));
      } else {
        EndPass(v0, s, p0, v);
      }
      if p == |s| && !ctl.f.remove { MarkCommonTo(p, VERBATIM); }
    }

    /** One byte of the hunt for the next tag, with an eye on the end of an armed ESI comment. */
    method NextTagByte(b: char, p0: nat) returns (p: nat)
      requires Valid(p0) && ctl == ResetTag(ctl) && ctl.state == NEXTTAG
      modifies this
      ensures p == p0 + 1 && Valid(p)
      ensures V(p) == Move(old(V(p0)), LoopNextTag(old(ctl), b))
    {
      p := p0;
      var k := ctl.esicmt;
      if k.text == NoText {
        p := p + 1;
      } else if b != At(k.text, k.p) {
        p := p + 1;
        ctl := ctl.(esicmt := Cursor(k.text, 0), f := ctl.f.(loose := false));
      } else {
        if At(k.text, k.p + 1) == '\0' {
          p := p + 1;
          ctl := ctl.(f := ctl.f.(esi_found := true, loose := false, astray := ctl.f.astray || ctl.f.loose),
                      esicmt := Cursor(NoText, 0));
          MarkCommonTo(p, SKIP);
        } else {
          if !ctl.f.remove && k.p == 0 { MarkCommonTo(p, VERBATIM); }
          p := p + 1;
          ctl := ctl.(esicmt := Cursor(k.text, k.p + 1));
        }
      }
    }

    /** The loop of NEXTTAG; the parser as a value has its flags reset with the first byte taken. */
    method Hunt(s: string, p0: nat, ghost v0: Vep) returns (p: nat, ghost v: Vep)
      requires p0 < |s| && Valid(p0) && ctl.state == NEXTTAG
      requires v0.ctl.state == NEXTTAG && ctl == ResetTag(v0.ctl) && v0.mk == V(p0).mk
      modifies this
      ensures p0 <= p <= |s| && Valid(p) && Reaches(v0, s, p0, v, p) && v.ctl.state == NEXTTAG
      ensures ctl == ResetTag(v.ctl) && v.mk == V(p).mk
      ensures p == |s| ==> v.ctl == ctl
      ensures p < |s| ==> s[p] == '<'
    {
      p, v := p0, v0;
      while p < |s| && s[p] != '<'
        invariant p0 <= p && Valid(p) && Reaches(v0, s, p0, v, p) && v.ctl.state == NEXTTAG
        invariant ctl == ResetTag(v.ctl) && v.mk == V(p).mk
        invariant p > p0 ==> v.ctl == ctl
      {
        LoopStep(v0, s, p0, v, p);
        ResetFirst(v.ctl, s[p]);
        ResetTwice(v.ctl);
        v := Move(v, LoopAct(v.ctl, s[p]));
        p := NextTagByte(s[p], p);
      }
    }

    method NextTag(s: string, p0: nat) returns (p: nat)
      requires p0 < |s| && Valid(p0) && ctl.state == NEXTTAG
      modifies this
      ensures Passed(old(V(p0)), s, p0, p)
    {
      hide Iter;
      ghost var v0 := V(p0);
      ghost var v;
      ctl := ResetTag(ctl);
      p, v := Hunt(s, p0, v0);
      if p < |s| {
        ExitPass(v0, s, p0, v, p);
        Rest(s, p);
        if !ctl.f.remove { MarkCommonTo(p, VERBATIM); }
        p := p + 1;
        ctl := ctl.(state := STARTTAG, f := ctl.f.(loose := false));
      } else {
        EndPass(v0, s, p0, v);
        if ctl.esicmt.p == 0 && !ctl.f.remove { MarkCommonTo(p, VERBATIM); }
      }
    }

    /** One byte of the hunt for the magic string. */
    method UntilByte(b: char, p0: nat) returns (p: nat, found: bool)
      requires Valid(p0) && ctl.state == UNTIL
      modifies this`ctl
      ensures p == p0 + 1 && Valid(p) && found == !Loops(old(ctl), b)
      ensures !found ==> V(p) == Move(old(V(p0)), LoopAct(old(ctl), b))
      ensures found ==> ctl == ExitText(old(ctl), b, false).ctl && V(p).mk == Advance(old(V(p0)).mk, 1)
    {
      p := p0 + 1;
      found := false;
      var u := ctl.until;
      ctl := ctl.(until := Cursor(u.text, u.p + 1));
      if b != At(u.text, u.p) {
        ctl := ctl.(until := Cursor(u.text, 0));
      } else if At(u.text, ctl.until.p) == '\0' {
        ctl := Loosen(ctl.(state := ctl.until_s));
        found := true;
      }
    }

    method Until(s: string, p0: nat) returns (p: nat)
      requires p0 < |s| && Valid(p0) && ctl.state == UNTIL
      modifies this
      ensures Passed(old(V(p0)), s, p0, p)
    {
      hide Iter, Loops;
      p := p0;
      ghost var v0 := V(p0);
      ghost var v := v0;
      var found := false;
      while p < |s| && !found
        invariant p0 <= p <= |s| && Valid(p) && v.ctl.state == UNTIL
        invariant !found ==> v == V(p) && Reaches(v0, s, p0, v, p)
        invariant found ==> p0 < p && Reaches(v0, s, p0, v, p - 1) && !Loops(v.ctl, s[p - 1])
        invariant found ==> ctl == ExitText(v.ctl, s[p - 1], false).ctl && V(p).mk == Advance(v.mk, 1)
        decreases |s| - p
      {
        v := V(p);
        p, found := UntilByte(s[p], p);
        if !found {
          LoopStep(v0, s, p0, v, p - 1);
          v := V(p);
        }
      }
      if found {
        ExitPass(v0, s, p0, v, p - 1);
        Rest(s, p - 1);
      } else {
        EndPass(v0, s, p0, v);
      }
      if p == |s| && !ctl.f.remove { MarkCommonTo(p, VERBATIM); }
    }

    // ---- section C: the start of a tag ----

    /** The states that only look at one byte, if any. */
    method Open(b: char, p0: nat) returns (p: nat)
      requires Valid(p0) && OpenState(ctl.state) && ctl.state != COMMENT
      modifies this
      ensures Valid(p) && p == p0 + ExitOpen(old(ctl), b).Eaten()
      ensures V(p) == Move(old(V(p0)), ExitOpen(old(ctl), b))
    {
      p := p0;
      if ctl.state == STARTTAG {
        if b == '/' {
          ctl := ctl.(f := ctl.f.(endtag := true));
          p := p + 1;
        }
        ctl := ctl.(match_tbl := StartTable, state := MATCH);
      } else if ctl.state == CDATA {
        ctl := ctl.(until := Cursor(CdataEnd, 0), until_s := NEXTTAG, state := UNTIL);
      } else if ctl.state == ESITAG {
        ctl := ctl.(f := ctl.f.(in_esi_tag := true, esi_found := true));
        MarkCommonTo(p, SKIP);
        ctl := ctl.(match_tbl := EsiTable, state := MATCH);
      } else if ctl.state == ESIINCLUDE {
        if ctl.f.remove || ctl.f.endtag {
          ctl := ctl.(state := TAGERROR);
        } else {
          ctl := ctl.(a := ctl.a.(dostuff := DoInclude, attr := true), state := INTAG);
        }
      } else if ctl.state == ESIREMOVE {
        ctl := ctl.(a := ctl.a.(dostuff := DoRemove), state := INTAG);
      } else if ctl.state == ESICOMMENT {
        if ctl.f.remove || ctl.f.endtag {
          ctl := ctl.(state := TAGERROR);
        } else {
          ctl := ctl.(a := ctl.a.(dostuff := DoComment), state := INTAG);
        }
      } else {
        ctl := ctl.(state := TAGERROR);
      }
    }

    /** One byte of a comment that may turn out to be an ESI comment. */
    method CommentByte(s: string, ghost p0: nat, ghost v0: Vep, q: nat) returns (p: nat, done: bool)
      requires Valid(q) && q < |s| && Reaches(v0, s, p0, V(q), q)
      requires ctl.state == COMMENT && !ctl.esicmt.text.NoText?
      modifies this
      ensures p0 <= p <= |s| && (q < p || done) && Valid(p)
      ensures !done ==> Reaches(v0, s, p0, V(p), p) && ctl.state == COMMENT && !ctl.esicmt.text.NoText?
      ensures done ==> Passed(v0, s, p0, p)
    {
      hide Iter, Loops;
      p := q;
      done := true;
      var k := ctl.esicmt;
      if s[q] != At(k.text, k.p) {
        CommentMiss(v0, s, p0, V(q), q);
        ctl := ctl.(esicmt := Cursor(NoText, 0), until := Cursor(CommentEnd, 0), until_s := NEXTTAG,
                    state := UNTIL, f := ctl.f.(astray := ctl.f.astray || ctl.f.remove));
        MarkCommonTo(p, VERBATIM);
      } else {
        p := p + 1;
        if At(k.text, k.p + 1) != '\0' {
          CommentMore(v0, s, p0, V(q), q);
          ctl := ctl.(esicmt := Cursor(k.text, k.p + 1));
          done := false;
        } else {
          CommentDone(v0, s, p0, V(q), q);
          ctl := ctl.(esicmt := Cursor(CommentEnd, 0), state := NEXTTAG);
          MarkCommonTo(p, SKIP);
        }
      }
    }

    method Comment(s: string, p0: nat) returns (p: nat)
      requires p0 < |s| && Valid(p0) && ctl.state == COMMENT
      modifies this
      ensures Passed(old(V(p0)), s, p0, p)
    {
      ghost var v0 := V(p0);
      if ctl.esicmt.text == NoText { ctl := ctl.(esicmt := Cursor(Esi, 0)); }
      Rest(s, p0);
      ArmFirst(v0, s[p0..]);
      p := p0;
      var done := false;
      while p < |s| && !done
        invariant p0 <= p <= |s| && Valid(p)
        invariant !done ==> Reaches(v0, s, p0, V(p), p) && ctl.state == COMMENT && !ctl.esicmt.text.NoText?
        invariant done ==> Passed(v0, s, p0, p)
        decreases |s| - p, !done
      {
        p, done := CommentByte(s, p0, v0, p);
      }
      if !done { EndPlain(v0, s, p0, V(p)); }
    }

    // ---- section D: inside a tag ----

    /** vep->dostuff(vep, DO_TAG). */
    method DoStuffTag()
      modifies this`ctl, this`mk
      ensures ctl == DoTag(old(ctl)).0
      ensures mk == if DoTag(old(ctl)).1.Some? then EmitInstr(old(mk), DoTag(old(ctl)).1.value) else old(mk)
    {
      if ctl.a.dostuff == NoDo {
        ctl := Dead(ctl);
      } else if ctl.a.dostuff == DoRemove {
        if !ctl.f.emptytag && !(ctl.f.remove && !ctl.f.endtag) && !(!ctl.f.remove && ctl.f.endtag) {
          ctl := ctl.(f := ctl.f.(remove := !ctl.f.endtag));
        }
      } else if ctl.a.dostuff == DoInclude && ctl.a.include_src.Some? {
        if IncludeOK(ctl.a.include_src.value) {
          mk := mk.(code := mk.code + [Include(ctl.a.include_src.value, ctl.a.url)]);
          ctl := ctl.(a := ctl.a.(include_src := None));
        } else {
          ctl := Dead(ctl);
        }
      }
    }

    /** White space and the final '/' in a tag. */
    method TagSpace(s: string, p0: nat) returns (p: nat)
      requires p0 < |s| && Valid(p0) && ctl.state == INTAG
      modifies this`ctl
      ensures p0 <= p <= |s| && Valid(p) && Reaches(old(V(p0)), s, p0, V(p), p) && ctl.state == INTAG
      ensures p < |s| ==> !Loops(ctl, s[p])
    {
      hide Iter;
      p := p0;
      ghost var v0 := V(p0);
      while p < |s| && IsLws(s[p]) && !ctl.f.emptytag
        invariant p0 <= p && Valid(p) && Reaches(v0, s, p0, V(p), p) && ctl.state == INTAG
      {
        LoopStep(v0, s, p0, V(p), p);
        p := p + 1;
        ctl := ctl.(f := ctl.f.(canattr := true));
      }
      if p < |s| && s[p] == '/' && !ctl.f.emptytag {
        LoopStep(v0, s, p0, V(p), p);
        p := p + 1;
        ctl := ctl.(f := ctl.f.(emptytag := true, canattr := false));
      }
    }

    method TagEnd(s: string, ghost p0: nat, ghost v0: Vep, q: nat) returns (p: nat)
      requires Valid(q) && q < |s| && Reaches(v0, s, p0, V(q), q) && ctl.state == INTAG
      requires !Loops(ctl, s[q])
      modifies this
      ensures Passed(v0, s, p0, p)
    {
      hide Iter, Loops;
      InTagPass(v0, s, p0, V(q), q);
      p := q;
      if s[p] == '>' {
        p := p + 1;
        MarkCommonTo(p, SKIP);
        DoStuffTag();
        ctl := ctl.(f := ctl.f.(in_esi_tag := false), state := NEXTTAG);
      } else if ctl.f.emptytag {
        ctl := ctl.(state := TAGERROR);
      } else if ctl.f.canattr && IsXmlNameStart(s[p]) {
        ctl := ctl.(state := ATTR);
      } else {
        ctl := ctl.(state := TAGERROR);
      }
    }

    method InTag(s: string, p0: nat) returns (p: nat)
      requires p0 < |s| && Valid(p0) && ctl.state == INTAG
      modifies this
      ensures Passed(old(V(p0)), s, p0, p)
    {
      ghost var v0 := V(p0);
      p := TagSpace(s, p0);
      if p < |s| {
        p := TagEnd(s, p0, v0, p);
      } else {
        EndPlain(v0, s, p0, V(p));
      }
    }

    method TagError(s: string, p0: nat) returns (p: nat)
      requires p0 < |s| && Valid(p0) && ctl.state == TAGERROR
      modifies this
      ensures Passed(old(V(p0)), s, p0, p)
    {
      p := Scan(s, p0);
      ghost var v0, v := V(p0), V(p);
      if p < |s| {
        ExitPass(v0, s, p0, v, p);
        Rest(s, p);
        p := p + 1;
        MarkCommonTo(p, SKIP);
        ctl := ctl.(f := ctl.f.(in_esi_tag := false), state := NEXTTAG);
      } else {
        EndPass(v0, s, p0, v);
      }
    }

    // ---- section E: attributes ----

    method Attr(ghost b: char, p0: nat) returns (p: nat)
      requires Valid(p0) && ctl.state == ATTR
      modifies this`ctl
      ensures Valid(p) && p == p0 + ExitAttr(old(ctl), b).Eaten()
      ensures V(p) == Move(old(V(p0)), ExitAttr(old(ctl), b))
    {
      p := p0;
      if !ctl.a.attr {
        if ctl.a.attr_vsb.Some? {
          ctl := Dead(ctl);
        } else {
          p := p + 1;
          ctl := ctl.(state := SKIPATTR);
        }
      } else {
        ctl := ctl.(match_tbl := IncludeTable, state := MATCH);
      }
    }

    method SkipAttr(s: string, p0: nat) returns (p: nat)
      requires p0 < |s| && Valid(p0) && ctl.state == SKIPATTR
      modifies this
      ensures Passed(old(V(p0)), s, p0, p)
    {
      p := Scan(s, p0);
      ghost var v0, v := V(p0), V(p);
      if p < |s| {
        AttrPass(v0, s, p0, v, p);
        if s[p] == '=' {
          p := p + 1;
          ctl := ctl.(state := ATTRDELIM);
        } else if s[p] == '>' || s[p] == '/' || IsSp(s[p]) {
          ctl := ctl.(state := INTAG);
        } else {
          ctl := ctl.(state := TAGERROR);
        }
      } else {
        EndPlain(v0, s, p0, v);
      }
    }

    method AttrDelim(b: char, p0: nat) returns (p: nat)
      requires Valid(p0) && ctl.state == ATTRDELIM
      modifies this`ctl
      ensures Valid(p) && p == p0 + ExitAttr(old(ctl), b).Eaten()
      ensures V(p) == Move(old(V(p0)), ExitAttr(old(ctl), b))
    {
      p := p0;
      if b == '"' || b == '\'' {
        p := p + 1;
        ctl := ctl.(a := ctl.a.(attr_delim := b), state := ATTRVAL);
      } else if !IsSp(b) {
        ctl := ctl.(a := ctl.a.(attr_delim := ' '), state := ATTRVAL);
      } else {
        ctl := ctl.(state := TAGERROR);
      }
    }

    /** vep->dostuff(vep, DO_ATTR), and dropping the value gathered. */
    method DoStuffAttr()
      modifies this`ctl
      ensures ctl == DoAttr(old(ctl))
    {
      if ctl.a.attr_vsb.Some? {
        if ctl.a.dostuff != DoInclude {
          ctl := Dead(ctl);
        } else {
          if ctl.a.include_src.Some? {
            ctl := ctl.(state := TAGERROR, a := ctl.a.(include_src := None));
          } else {
            ctl := ctl.(a := ctl.a.(include_src := ctl.a.attr_vsb));
          }
          ctl := ctl.(a := ctl.a.(attr_vsb := None));
        }
      }
    }

    /** The value of an attribute, up to its delimiter. */
    method Value(s: string, p0: nat) returns (p: nat)
      requires p0 < |s| && Valid(p0) && ctl.state == ATTRVAL
      modifies this`ctl
      ensures p0 <= p <= |s| && Valid(p) && Reaches(old(V(p0)), s, p0, V(p), p) && ctl.state == ATTRVAL
      ensures p < |s| ==> !Loops(ctl, s[p])
    {
      p := p0;
      ghost var v0 := V(p0);
      while p < |s| && s[p] != '>' && s[p] != ctl.a.attr_delim && (ctl.a.attr_delim != ' ' || !IsSp(s[p]))
        invariant p0 <= p && Valid(p) && Reaches(v0, s, p0, V(p), p) && ctl.state == ATTRVAL
      {
        LoopStep(v0, s, p0, V(p), p);
        if ctl.a.attr_vsb.Some? {
          ctl := ctl.(a := ctl.a.(attr_vsb := Some(ctl.a.attr_vsb.value + [s[p]])));
        }
        p := p + 1;
      }
    }

    method AttrVal(s: string, p0: nat) returns (p: nat)
      requires p0 < |s| && Valid(p0) && ctl.state == ATTRVAL
      modifies this
      ensures Passed(old(V(p0)), s, p0, p)
    {
      ghost var v0 := V(p0);
      p := Value(s, p0);
      if p < |s| {
        AttrPass(v0, s, p0, V(p), p);
        if s[p] == '>' {
          ctl := ctl.(state := TAGERROR, a := ctl.a.(attr_delim := '\0', attr_vsb := None));
        } else {
          p := p + 1;
          ctl := ctl.(state := INTAG, a := ctl.a.(attr_delim := '\0'));
          DoStuffAttr();
        }
      } else {
        EndPlain(v0, s, p0, V(p));
      }
    }

    // ---- keywords ----

    method Match(s: string, p0: nat) returns (p: nat)
      requires p0 < |s| && Valid(p0) && ctl.state == MATCH
      modifies this`ctl
      ensures p0 <= p <= |s| && Valid(p)
      ensures p - p0 == ExitMatch(old(ctl), s[p0..]).Eaten()
      ensures V(p) == Move(old(V(p0)), ExitMatch(old(ctl), s[p0..]))
    {
      p := p0;
      var m := VepMatch(ctl.match_tbl, s, p0);
      if m.More? {
        ctl := ctl.(tag := s[p..], state := MATCHBUF);
        p := |s|;
      } else {
        if m.Hit? { p := p + m.len; }
        ctl := Enter(ctl, if m.Hit? then m.state else Default(ctl.match_tbl));
      }
    }

    /** One byte matched against a table while split over pieces. */
    method MatchBufByte(b: char, p0: nat) returns (p: nat, done: bool)
      requires Valid(p0) && ctl.state == MATCHBUF
      modifies this`ctl
      ensures Valid(p) && done == !Loops(old(ctl), b)
      ensures !done ==> ctl.state == MATCHBUF && p == p0 + 1 && V(p) == Move(old(V(p0)), LoopAct(old(ctl), b))
      ensures done ==> p == p0 + ExitMatchBuf(old(ctl), b).Eaten()
      ensures done ==> V(p) == Move(old(V(p0)), ExitMatchBuf(old(ctl), b))
    {
      p := p0;
      var m := Miss;
      if b != '>' {
        var tag := ctl.tag + [b];
        p := p + 1;
        m := VepMatch(ctl.match_tbl, tag, 0);
        assert tag[0..] == tag;
        if m.Miss? { p := p - 1; } else { ctl := ctl.(tag := tag); }
      }
      done := !m.More?;
      if done { ctl := Enter(ctl, if m.Hit? then m.state else Default(ctl.match_tbl)); }
    }

    method MatchBufStep(s: string, ghost p0: nat, ghost v0: Vep, q: nat) returns (p: nat, done: bool)
      requires Valid(q) && q < |s| && Reaches(v0, s, p0, V(q), q) && ctl.state == MATCHBUF
      modifies this`ctl
      ensures p0 <= p <= |s| && (q < p || done) && Valid(p)
      ensures !done ==> Reaches(v0, s, p0, V(p), p) && ctl.state == MATCHBUF
      ensures done ==> Passed(v0, s, p0, p)
    {
      hide IterFrom, Iter, Loops, LoopAct, ExitMatchBuf;
      ghost var v := V(q);
      p, done := MatchBufByte(s[q], q);
      if done {
        MatchBufPass(v0, s, p0, v, q);
      } else {
        LoopStep(v0, s, p0, v, q);
      }
    }

    method MatchBuf(s: string, p0: nat) returns (p: nat)
      requires p0 < |s| && Valid(p0) && ctl.state == MATCHBUF
      modifies this`ctl
      ensures Passed(old(V(p0)), s, p0, p)
    {
      ghost var v0 := V(p0);
      p := p0;
      var done := false;
      while p < |s| && !done
        invariant p0 <= p <= |s| && Valid(p)
        invariant !done ==> Reaches(v0, s, p0, V(p), p) && ctl.state == MATCHBUF
        invariant done ==> Passed(v0, s, p0, p)
        decreases |s| - p, !done
      {
        p, done := MatchBufStep(s, p0, v0, p);
      }
      if !done { EndPlain(v0, s, p0, V(p)); }
    }

    // ---- the outer loop ----

    /** States that do not loop: what they do depends on the bytes in front of them. */
    method OnePass(s: string, p0: nat) returns (p: nat)
      requires p0 < |s| && Valid(p0)
      requires ctl.state in {START, ATTR, ATTRGETVAL, ATTRDELIM, MATCH}
        || (OpenState(ctl.state) && ctl.state != COMMENT)
      modifies this
      ensures Passed(old(V(p0)), s, p0, p)
    {
      ghost var v0 := V(p0);
      if OpenState(ctl.state) {
        OpenPass(v0, s, p0, v0, p0);
        p := Open(s[p0], p0);
      } else if AttrState(ctl.state) {
        AttrPass(v0, s, p0, v0, p0);
        if ctl.state == ATTR {
          p := Attr(s[p0], p0);
        } else if ctl.state == ATTRGETVAL {
          p := p0;
          ctl := ctl.(a := ctl.a.(attr_vsb := Some("")), state := ATTRDELIM);
        } else {
          p := AttrDelim(s[p0], p0);
        }
      } else {
        ExitPass(v0, s, p0, v0, p0);
        Rest(s, p0);
        if ctl.state == MATCH {
          p := Match(s, p0);
        } else {
          p := p0;
          ctl := ctl.(state := TESTXML);
        }
      }
    }

    /** One pass of the outer loop. */
    method Pass(s: string, p0: nat) returns (p: nat)
      requires p0 < |s| && Valid(p0)
      modifies this
      ensures Passed(old(V(p0)), s, p0, p)
    {
      if ctl.state == TESTXML { p := TestXml(s, p0); }
      else if ctl.state == NOTXML { p := NotXml(s, p0); }
      else if ctl.state == NOTMYTAG { p := NotMyTag(s, p0); }
      else if ctl.state == NEXTTAG { p := NextTag(s, p0); }
      else if ctl.state == COMMENT { p := Comment(s, p0); }
      else if ctl.state == INTAG { p := InTag(s, p0); }
      else if ctl.state == TAGERROR { p := TagError(s, p0); }
      else if ctl.state == SKIPATTR { p := SkipAttr(s, p0); }
      else if ctl.state == ATTRVAL { p := AttrVal(s, p0); }
      else if ctl.state == MATCHBUF { p := MatchBuf(s, p0); }
      else if ctl.state == UNTIL { p := Until(s, p0); }
      else { p := OnePass(s, p0); }
    }

    /** Marks up what is left of the piece. */
    method EndMarks(p: nat)
      requires Valid(p) && !ctl.f.dead
      modifies this`mk, this`ver_p
      ensures mk.run == 0 && Vep(ctl, mk) == EndPiece(old(V(p)))
    {
      if p != ver_p {
        if ctl.f.in_esi_tag || ctl.f.remove { MarkCommonTo(p, SKIP); } else { MarkPendingTo(p); }
      }
      assert V(p).mk == mk;
    }

    /** VEP_parse on one piece. A failed assertion ends it there. */
    method VepParse(s: string)
      requires s != [] && mk.run == 0 && !ctl.f.dead
      modifies this
      ensures ctl.f.dead == Parse(old(Vep(ctl, mk)), s).ctl.f.dead
      ensures !ctl.f.dead ==> mk.run == 0 && Vep(ctl, mk) == Parse(old(Vep(ctl, mk)), s)
    {
      hide Loop, Iter, EndPiece;
      ver_p := 0;
      var p := 0;
      assert s[0..] == s;
      ghost var v0 := V(0);
      while p < |s| && !ctl.f.dead
        invariant p <= |s| && Valid(p) && Loop(V(p), s[p..]) == Loop(v0, s)
        decreases |s| - p, !ctl.f.dead, if p < |s| then Rank(ctl, s[p]) else 0
      {
        Rest(s, p);
        LoopTurn(V(p), s[p..]);
        ghost var q := p;
        p := Pass(s, p);
        assert s[q..][p - q..] == s[p..];
      }
      LoopStops(V(p), s[p..]);
      if !ctl.f.dead { EndMarks(p); }
    }

    /** VEP_Finish. */
    method VepFinish() returns (r: Option<seq<Instr>>)
      requires mk.run == 0
      modifies this
      ensures r == Finish(old(Vep(ctl, mk)))
    {
      ver_p := 0;
      if mk.o_pending > 0 { MarkCommonTo(0, mk.last_mark); }
      if mk.o_wait > 0 { mk := mk.(code := EmitCommon(mk.code, mk.cb_x - mk.o_last, mk.last_mark)); }
      if ctl.f.esi_found && |mk.code| > 0 { return Some(mk.code); }
      r := None;
    }
  }

  lemma {:induction false} TakesAll(v0: Vep, s: string, p0: nat, v: Vep, p: nat)
    requires Reaches(v0, s, p0, v, p) && v.ctl.state == NOTXML
    ensures Reaches(v0, s, p0, v.(mk := Advance(v.mk, |s| - p)), |s|)
    decreases |s| - p
  {
    if p < |s| {
      LoopStep(v0, s, p0, v, p);
      TakesAll(v0, s, p0, Move(v, LoopAct(v.ctl, s[p])), p + 1);
    }
  }

  lemma ResetTwice(c: Ctl)
    ensures ResetTag(ResetTag(c)) == ResetTag(c)
  {
  }

  lemma ResetFirst(c: Ctl, b: char)
    requires c.state == NEXTTAG
    ensures LoopNextTag(c, b) == LoopNextTag(ResetTag(c), b) == LoopAct(c, b)
    ensures ResetTag(LoopAct(c, b).ctl) == LoopAct(c, b).ctl && LoopAct(c, b).ctl.state == NEXTTAG
  {
    ResetTwice(c);
    ResetCommutes(ResetTag(c), b);
  }

  lemma ResetCommutes(c: Ctl, b: char)
    requires ResetTag(c) == c
    ensures ResetTag(LoopNextTag(c, b).ctl) == LoopNextTag(c, b).ctl
  {
  }

  /** Setting up the text of an ESI comment beforehand changes nothing. */
  lemma ArmFirst(v: Vep, s: string)
    requires s != [] && v.ctl.state == COMMENT
    ensures IterFrom(v, s) == IterFrom(v.(ctl := v.ctl.(esicmt := ArmComment(v.ctl.esicmt))), s)
  {
    var c := v.ctl.(esicmt := ArmComment(v.ctl.esicmt));
    var b := s[0];
    assert Loops(c, b) == Loops(v.ctl, b);
    assert LoopAct(c, b) == LoopAct(v.ctl, b);
    assert ExitComment(c, b) == ExitComment(v.ctl, b);
  }

  lemma LoopStops(v: Vep, s: string)
    requires s == [] || v.ctl.f.dead
    ensures Loop(v, s) == v && (v.ctl.f.dead ==> EndPiece(v) == v)
  {
  }

  lemma LoopTurn(v: Vep, s: string)
    requires s != [] && !v.ctl.f.dead
    ensures var (w, n) := Iter(v, s);
      && Loop(v, s) == Loop(w, s[n..])
      && (n > 0 || w.ctl.f.dead || Rank(w.ctl, s[0]) < Rank(v.ctl, s[0]))
  {
    IterProgress(v, s);
  }
}
