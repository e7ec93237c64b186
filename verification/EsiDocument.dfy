/** What a document means: the parser, fed its bytes in any pieces, gives instructions that send plain text and
    tags as they are, one included document for each include, and nothing of what is removed. */
module EsiDocument {
  import opened Wrappers
  import opened Vct
  import opened Seqs
  import opened EsiMarks
  import opened EsiStep
  import opened EsiParse
  import opened EsiSplit
  import opened EsiViews
  import opened EsiTags
  import EsiCode
  import EsiExact

  type Outs = seq<EsiCode.Out>

  // ---- documents ----

  /** A construct that does not nest. A tag is given by what stands between its angle brackets; `slash` tells
      whether it ends in "/>". `Bogus` is an ESI tag with a name that ESI does not have, `Stray` an end tag of an
      include or a remark. */
  datatype Part =
    | Text(s: string)
    | Tag(t: string)
    | Comment(s: string)
    | Cdata(s: string)
    | Include(attrs: seq<Attr>, slash: bool)
    | Remark(attrs: seq<Attr>, slash: bool)
    | Bogus(t: string)
    | Stray(remark: bool, t: string)

  /** A document: constructs, parts between <esi:remove> tags, and parts in an ESI comment. */
  datatype Doc =
    | Done
    | Piece(part: Part, rest: Doc)
    | Removed(inner: Doc, rest: Doc)
    | Hidden(inner: Doc, rest: Doc)

  function AttrsText(attrs: seq<Attr>): string {
    if attrs == [] then "" else AttrText(attrs[0]) + AttrsText(attrs[1..])
  }

  function EndText(slash: bool): string { if slash then "/>" else ">" }

  function PartText(p: Part): string {
    match p
    case Text(s) => s
    case Tag(t) => "<" + (t + ">")
    case Comment(s) => "<" + ("!--" + (s + "-->"))
    case Cdata(s) => "<" + ("![CDATA[" + (s + "]]>"))
    case Include(attrs, slash) => "<" + ("esi:include" + (AttrsText(attrs) + EndText(slash)))
    case Remark(attrs, slash) => "<" + ("esi:comment" + (AttrsText(attrs) + EndText(slash)))
    case Bogus(t) => "<" + ("esi:" + (t + ">"))
    case Stray(remark, t) => "<" + ((if remark then "/esi:comment" else "/esi:include") + (t + ">"))
  }

  const OPENREMOVE: string := "<" + ("esi:remove" + ">")
  const CLOSEREMOVE: string := "<" + ("/esi:remove" + ">")
  const OPENCOMMENT: string := "<" + ("!--" + "esi")
  const CLOSECOMMENT: string := "-->"

  function Source(doc: Doc): string {
    match doc
    case Done => ""
    case Piece(p, rest) => PartText(p) + Source(rest)
    case Removed(inner, rest) => OPENREMOVE + (Source(inner) + (CLOSEREMOVE + Source(rest)))
    case Hidden(inner, rest) => OPENCOMMENT + (Source(inner) + (CLOSECOMMENT + Source(rest)))
  }

  /** The value of src, if there is one. */
  function SrcOf(attrs: seq<Attr>): Option<string> {
    if attrs == [] then None else if attrs[0].name == "src" then Some(attrs[0].value) else SrcOf(attrs[1..])
  }

  function PartMeaning(p: Part, url: string): Outs {
    match p
    case Text(s) => EsiCode.Bytes(s)
    case Tag(t) => EsiCode.Bytes(PartText(p))
    case Comment(s) => EsiCode.Bytes(PartText(p))
    case Cdata(s) => EsiCode.Bytes(PartText(p))
    case Include(attrs, _) =>
      if SrcOf(attrs).None? then []
      else
        var (host, path) := EsiCode.IncludeOf(SrcOf(attrs).value, url);
        [EsiCode.Child(host, path)]
    case _ => []
  }

  /** What a client gets. */
  function Meaning(doc: Doc, url: string): Outs {
    match doc
    case Done => []
    case Piece(p, rest) => PartMeaning(p, url) + Meaning(rest, url)
    case Removed(_, rest) => Meaning(rest, url)
    case Hidden(inner, rest) => Meaning(inner, url) + Meaning(rest, url)
  }

  predicate IsEsi(p: Part) { p.Include? || p.Remark? || p.Bogus? || p.Stray? }

  /** Is there any ESI in it? */
  predicate HasEsi(doc: Doc) {
    match doc
    case Done => false
    case Piece(p, rest) => IsEsi(p) || HasEsi(rest)
    case Removed(_, _) => true
    case Hidden(_, _) => true
  }

  // ---- which documents are meant ----

  /** No two of `c` in a row, and none at the end. */
  predicate Calm(s: string, c: char) {
    && (forall i :: 0 <= i < |s| - 1 ==> !(s[i] == c && s[i + 1] == c))
    && (s != [] ==> s[|s| - 1] != c)
  }

  predicate GoodAttrs(attrs: seq<Attr>) {
    && (forall i :: 0 <= i < |attrs| ==> GoodAttr(attrs[i]))
    && (forall i, j :: 0 <= i < j < |attrs| ==> !(attrs[i].name == "src" && attrs[j].name == "src"))
  }

  /** Text has no '<', and inside an ESI comment no dashes that could be taken for its end. Comments stand neither
      in an ESI comment nor in a removed part. An absolute include has a path. */
  predicate GoodPart(p: Part, hidden: bool, removed: bool) {
    match p
    case Text(s) => '<' !in s && (hidden ==> Calm(s, '-'))
    case Tag(t) => PlainTag(t)
    case Comment(s) => !hidden && !removed && Calm(s, '-') && !("esi" <= s)
    case Cdata(s) => Calm(s, ']')
    case Include(attrs, _) => GoodAttrs(attrs) && (SrcOf(attrs).Some? ==> IncludeOK(SrcOf(attrs).value))
    case Remark(attrs, _) => GoodAttrs(attrs)
    case Bogus(t) => '>' !in t && EsiFree(t)
    case Stray(_, t) => '>' !in t
  }

  predicate Good(doc: Doc, hidden: bool, removed: bool) {
    match doc
    case Done => true
    case Piece(p, rest) => GoodPart(p, hidden, removed) && Good(rest, hidden, removed)
    case Removed(inner, rest) => !removed && Good(inner, hidden, true) && Good(rest, hidden, removed)
    case Hidden(inner, rest) => !hidden && Good(inner, true, removed) && Good(rest, hidden, removed)
  }

  // ---- the parser between two constructs ----

  function Armed(hidden: bool, p: nat): Cursor { if hidden then Cursor(CommentEnd, p) else Cursor(NoText, 0) }

  predicate Quiet(c: Ctl, removed: bool, url: string) {
    && !c.f.dead && !c.f.astray && !c.f.loose && !c.f.in_esi_tag && c.f.remove == removed
    && c.match_tbl == NoTable && c.tag == "" && c.a.attr_vsb == None && c.a.attr_delim == '\0'
    && c.a.include_src == None && c.a.url == url
  }

  predicate Ready(c: Ctl, hidden: bool, removed: bool, url: string, p: nat) {
    c.state == NEXTTAG && Quiet(c, removed, url) && c.esicmt == Armed(hidden, p)
  }

  /** The parser at NEXTTAG after `d`, of which `out` is sent. */
  ghost predicate Stands(v: Vep, hidden: bool, removed: bool, url: string, d: string, out: Outs) {
    Ready(v.ctl, hidden, removed, url, 0) && Shows(v.mk, d, out, removed)
  }

  // ---- text ----

  lemma TextByte(v: Vep, hidden: bool, removed: bool, url: string, p: nat, b: char, d: string, out: Outs)
    requires Ready(v.ctl, hidden, removed, url, p) && Shows(v.mk, d, out, removed)
    requires b != '<' && p <= 1 && (p == 1 ==> hidden && b != '-')
    ensures var w := Byte(v, b);
      && Ready(w.ctl, hidden, removed, url, if hidden && b == '-' then 1 else 0)
      && Shows(w.mk, d + [b], out + if removed then [] else EsiCode.Bytes([b]), removed)
      && w.ctl.f.esi_found == v.ctl.f.esi_found
  {
    ByteLoops(v, b);
    TextMove(v.ctl, hidden, removed, url, p, b);
    hide Byte, MarkCommon, Shows, LoopAct, Loops;
    assert Advance(v.mk, 0) == v.mk;
    ShowsOn(v.mk, d, out, removed, [b]);
    if hidden && b == '-' && !removed {
      ShowsMarked(v.mk, d, out);
      ShowsOn(MarkCommon(v.mk, VERBATIM), d, out, removed, [b]);
    }
  }

  lemma TextMove(c: Ctl, hidden: bool, removed: bool, url: string, p: nat, b: char)
    requires Ready(c, hidden, removed, url, p) && b != '<' && p <= 1 && (p == 1 ==> hidden && b != '-')
    ensures var a := LoopAct(c, b);
      && Loops(c, b) && Ready(a.ctl, hidden, removed, url, if hidden && b == '-' then 1 else 0)
      && a.ctl.f.esi_found == c.f.esi_found && a.emit == None
      && (if hidden && b == '-' && !removed then a.pre == 0 && a.mark == Some(VERBATIM) && a.post == 1
          else a.mark == None && a.pre + a.post == 1)
  {
  }

  lemma {:induction false} TextTaken(v: Vep, hidden: bool, removed: bool, url: string, p: nat, s: string, d: string,
                                     out: Outs)
    requires Ready(v.ctl, hidden, removed, url, p) && Shows(v.mk, d, out, removed)
    requires '<' !in s && p <= 1 && (hidden ==> Calm(s, '-')) && (p == 1 ==> hidden && s != [] && s[0] != '-')
    ensures var w := Bytes(v, s);
      && Stands(w, hidden, removed, url, d + s, out + if removed then [] else EsiCode.Bytes(s))
      && w.ctl.f.esi_found == v.ctl.f.esi_found
    decreases |s|
  {
    hide Byte, Ready, Shows;
    if s == [] {
      assert d + s == d;
      NoOuts(out);
    } else {
      TextByte(v, hidden, removed, url, p, s[0], d, out);
      CalmRest(s, '-');
      assert d + [s[0]] + s[1..] == d + s;
      TextTaken(Byte(v, s[0]), hidden, removed, url, if hidden && s[0] == '-' then 1 else 0, s[1..], d + [s[0]],
                out + if removed then [] else EsiCode.Bytes([s[0]]));
      OutsJoin(out, removed, [s[0]], s[1..]);
      assert [s[0]] + s[1..] == s;
    }
  }

  lemma CalmRest(s: string, c: char)
    requires s != []
    ensures Calm(s, c) ==> Calm(s[1..], c) && (s[0] == c ==> |s| > 1 && s[1] != c)
  {
  }

  lemma NoOuts(out: Outs)
    ensures out + EsiCode.Bytes([]) == out && out + [] == out
  {
  }

  lemma OutsJoin(out: Outs, removed: bool, a: string, b: string)
    ensures var f := (s: string) => if removed then [] else EsiCode.Bytes(s); out + f(a) + f(b) == out + f(a + b)
  {
    BytesJoined(a, b);
  }

  // ---- tags ----

  /** Behind the '<' of a tag. */
  predicate Opening(c: Ctl, hidden: bool, removed: bool, url: string) {
    && c.state == STARTTAG && Quiet(c, removed, url) && c.esicmt == Armed(hidden, 0)
    && !c.f.emptytag && !c.f.endtag && !c.a.attr && c.a.dostuff.NoDo?
  }

  /** It is text for now, and can still be skipped. */
  lemma AngleTaken(v: Vep, hidden: bool, removed: bool, url: string, d: string, out: Outs)
    requires Stands(v, hidden, removed, url, d, out)
    ensures var w := Byte(v, '<');
      && Opening(w.ctl, hidden, removed, url) && w.ctl.f.esi_found == v.ctl.f.esi_found
      && Shows(w.mk, d + "<", out + if removed then [] else EsiCode.Bytes("<"), removed)
      && Owes(w.mk, d + "<", out, w.mk.cb_x)
  {
    OpenAngle(v);
    hide Byte, MarkCommon, Shows, Owes;
    ShowsOn(v.mk, d, out, removed, "<");
    if removed {
      RemovedOwes(v.mk, d, out);
      OwesOn(v.mk, d, out, v.mk.cb_x, "<");
    } else {
      ShowsMarked(v.mk, d, out);
      var m := MarkCommon(v.mk, VERBATIM);
      ShowsOn(m, d, out, removed, "<");
      OwesOn(m, d, out, |d|, "<");
      OwesAt(m, d, out, |d|);
    }
  }

  lemma OwesAt(mk: Marks, d: string, out: Outs, n: nat)
    requires Owes(mk, d, out, n)
    ensures mk.cb_x == n
  {
  }

  /** Bytes that are text where text is sent, and are only run over. */
  lemma Passed(v: Vep, w: Vep, removed: bool, d: string, a: string, b: string, out: Outs)
    requires Shows(v.mk, d + a, out + if removed then [] else EsiCode.Bytes(a), removed)
    requires w.mk == Advance(v.mk, |b|)
    ensures Shows(w.mk, d + (a + b), out + if removed then [] else EsiCode.Bytes(a + b), removed)
  {
    hide Shows;
    ShowsOn(v.mk, d + a, out + if removed then [] else EsiCode.Bytes(a), removed, b);
    Assoc(d, a, b);
    OutsJoin(out, removed, a, b);
  }

  lemma TagTaken(v: Vep, hidden: bool, removed: bool, url: string, t: string, d: string, out: Outs)
    requires Stands(v, hidden, removed, url, d, out) && PlainTag(t)
    ensures var s := PartText(Tag(t)); var w := Bytes(v, s);
      && Stands(w, hidden, removed, url, d + s, out + if removed then [] else EsiCode.Bytes(s))
      && w.ctl.f.esi_found == v.ctl.f.esi_found
  {
    hide Byte, Bytes, Shows, MarkCommon;
    AngleTaken(v, hidden, removed, url, d, out);
    BytesFirst(v, '<', t + ">");
    var v1 := Byte(v, '<');
    PlainTagTaken(v1, t);
    Passed(v1, Bytes(v1, t + ">"), removed, d, "<", t + ">", out);
  }

  // ---- comments and CDATA ----

  function EndOf(t: Text): string { if t.CommentEnd? then "-->" else "]]>" }

  function Dash(t: Text): char { if t.CommentEnd? then '-' else ']' }

  lemma {:induction false} UntilText(v: Vep, s: string)
    requires v.ctl.state == UNTIL && !v.ctl.f.dead && (v.ctl.until.text.CommentEnd? || v.ctl.until.text.CdataEnd?)
    requires v.ctl.until.p <= 1 && Calm(s, Dash(v.ctl.until.text))
    requires v.ctl.until.p == 1 ==> s != [] && s[0] != Dash(v.ctl.until.text)
    ensures Bytes(v, s) == Vep(v.ctl.(until := Cursor(v.ctl.until.text, 0)), Advance(v.mk, |s|))
    decreases |s|
  {
    hide Byte;
    if s != [] {
      UntilOne(v, s[0]);
      CalmRest(s, Dash(v.ctl.until.text));
      UntilText(Byte(v, s[0]), s[1..]);
    }
  }

  lemma UntilOne(v: Vep, b: char)
    requires v.ctl.state == UNTIL && !v.ctl.f.dead && (v.ctl.until.text.CommentEnd? || v.ctl.until.text.CdataEnd?)
    requires v.ctl.until.p <= 1 && (v.ctl.until.p == 1 ==> b != Dash(v.ctl.until.text))
    ensures Byte(v, b)
      == Vep(v.ctl.(until := Cursor(v.ctl.until.text, if b == Dash(v.ctl.until.text) then 1 else 0)), Advance(v.mk, 1))
  {
    ByteLoops(v, b);
  }

  lemma UntilTaken(v: Vep, s: string)
    requires v.ctl.state == UNTIL && !v.ctl.f.dead && (v.ctl.until.text.CommentEnd? || v.ctl.until.text.CdataEnd?)
    requires v.ctl.until.p == 0 && v.ctl.until_s == NEXTTAG && Calm(s, Dash(v.ctl.until.text))
    ensures Bytes(v, s + EndOf(v.ctl.until.text))
      == Vep(Loosen(v.ctl.(until := Cursor(v.ctl.until.text, 3), state := NEXTTAG)), Advance(v.mk, |s| + 3))
  {
    hide Byte, Bytes, Loosen;
    var t := v.ctl.until.text;
    UntilText(v, s);
    BytesJoin(v, s, EndOf(t));
    var c := Dash(t);
    assert EndOf(t) == [c] + ([c] + ['>']);
    var v0 := Vep(v.ctl.(until := Cursor(t, 0)), Advance(v.mk, |s|));
    var v1 := Vep(v.ctl.(until := Cursor(t, 1)), Advance(v.mk, |s| + 1));
    var v2 := Vep(v.ctl.(until := Cursor(t, 2)), Advance(v.mk, |s| + 2));
    BytesFirst(v0, c, [c] + ['>']);
    BytesFirst(v1, c, ['>']);
    BytesOne(v2, '>');
    UntilOne(v0, c);
    UntilTwo(v1);
    UntilEnd(v2);
  }

  lemma UntilTwo(v: Vep)
    requires v.ctl.state == UNTIL && !v.ctl.f.dead && (v.ctl.until.text.CommentEnd? || v.ctl.until.text.CdataEnd?)
    requires v.ctl.until.p == 1
    ensures Byte(v, Dash(v.ctl.until.text)) == Vep(v.ctl.(until := Cursor(v.ctl.until.text, 2)), Advance(v.mk, 1))
  {
    ByteLoops(v, Dash(v.ctl.until.text));
  }

  lemma UntilEnd(v: Vep)
    requires v.ctl.state == UNTIL && !v.ctl.f.dead && (v.ctl.until.text.CommentEnd? || v.ctl.until.text.CdataEnd?)
    requires v.ctl.until.p == 2 && v.ctl.until_s == NEXTTAG
    ensures Byte(v, '>')
      == Vep(Loosen(v.ctl.(until := Cursor(v.ctl.until.text, 3), state := NEXTTAG)), Advance(v.mk, 1))
  {
    hide Loosen;
    ByteEats(v, '>');
  }

  lemma CdataTaken(v: Vep, hidden: bool, removed: bool, url: string, s: string, d: string, out: Outs)
    requires Stands(v, hidden, removed, url, d, out) && Calm(s, ']')
    ensures var t := PartText(Cdata(s)); var w := Bytes(v, t);
      && Stands(w, hidden, removed, url, d + t, out + if removed then [] else EsiCode.Bytes(t))
      && w.ctl.f.esi_found == v.ctl.f.esi_found
  {
    hide Byte, Bytes, Shows, MarkCommon, MatchTable;
    AngleTaken(v, hidden, removed, url, d, out);
    var tail := "![CDATA[" + (s + "]]>");
    BytesFirst(v, '<', tail);
    var v1 := Byte(v, '<');
    ToMatch(v1, tail);
    var v2 := Vep(AtWord(v1.ctl, false), v1.mk);
    BytesJoin(v2, "![CDATA[", s + "]]>");
    StartWords();
    assert "![CDATA" + ['['] == "![CDATA[";
    KeywordTaken(v2, "![CDATA", '[', CDATA);
    var v3 := Vep(Enter(v2.ctl, CDATA), Advance(v1.mk, 8));
    CdataBegins(v3, s + "]]>");
    UntilTaken(Vep(v3.ctl.(until := Cursor(CdataEnd, 0), until_s := NEXTTAG, state := UNTIL), v3.mk), s);
    Passed(v1, Bytes(v1, tail), removed, d, "<", tail, out);
  }

  lemma CdataBegins(v: Vep, s: string)
    requires v.ctl.state == CDATA && !v.ctl.f.dead && s != []
    ensures Bytes(v, s) == Bytes(Vep(v.ctl.(until := Cursor(CdataEnd, 0), until_s := NEXTTAG, state := UNTIL), v.mk), s)
  {
    hide Byte, Bytes;
    assert Advance(v.mk, 0) == v.mk;
    BytesPass(v, s);
  }

  /** The keyword of a comment. */
  lemma CommentBegins(v: Vep, s: string)
    requires v.ctl.state == STARTTAG && !v.ctl.f.dead
    ensures Bytes(v, "!--" + s) == Bytes(Vep(Enter(AtWord(v.ctl, false), COMMENT), Advance(v.mk, 3)), s)
  {
    hide Byte, Bytes, MatchTable;
    ToMatch(v, "!--" + s);
    var v2 := Vep(AtWord(v.ctl, false), v.mk);
    BytesJoin(v2, "!--", s);
    StartWords();
    assert "!-" + ['-'] == "!--";
    KeywordTaken(v2, "!-", '-', COMMENT);
  }

  /** In a comment, with `j` bytes of "esi" behind it that may make it an ESI comment. */
  predicate Undecided(c: Ctl, removed: bool, url: string, j: nat) {
    c.state == COMMENT && Quiet(c, removed, url) && ArmComment(c.esicmt) == Cursor(Esi, j)
  }

  lemma UndecidedOne(v: Vep, removed: bool, url: string, j: nat)
    requires Undecided(v.ctl, removed, url, j) && j < 2
    ensures var w := Byte(v, At(Esi, j));
      Undecided(w.ctl, removed, url, j + 1) && w.mk == Advance(v.mk, 1) && w.ctl.f.esi_found == v.ctl.f.esi_found
  {
    ByteLoops(v, At(Esi, j));
  }

  lemma NotEsi(v: Vep, url: string, j: nat, s: string)
    requires Undecided(v.ctl, false, url, j) && j <= 2 && s != [] && s[0] != At(Esi, j)
    ensures Bytes(v, s) == Bytes(Vep(
      v.ctl.(esicmt := Cursor(NoText, 0), until := Cursor(CommentEnd, 0), until_s := NEXTTAG, state := UNTIL),
      MarkCommon(v.mk, VERBATIM)), s)
  {
    hide Byte, Bytes, MarkCommon;
    assert Advance(v.mk, 0) == v.mk && Advance(MarkCommon(v.mk, VERBATIM), 0) == MarkCommon(v.mk, VERBATIM);
    BytesPass(v, s);
  }

  lemma {:induction false} CommentEnds(v: Vep, url: string, j: nat, s: string, d: string, out: Outs)
    requires Undecided(v.ctl, false, url, j) && j <= 2 && Shows(v.mk, d, out, false)
    requires Calm(s, '-') && !("esi"[j..] <= s)
    ensures var w := Bytes(v, s + "-->");
      && Stands(w, false, false, url, d + (s + "-->"), out + EsiCode.Bytes(s + "-->"))
      && w.ctl.f.esi_found == v.ctl.f.esi_found
    decreases |s|
  {
    hide Byte, Bytes, Shows, MarkCommon;
    var t := s + "-->";
    if t[0] == At(Esi, j) {
      assert s != [];
      EsiOn(j, s);
      UndecidedOne(v, false, url, j);
      assert t == [s[0]] + (s[1..] + "-->");
      BytesFirst(v, s[0], s[1..] + "-->");
      ShowsOn(v.mk, d, out, false, [s[0]]);
      CalmRest(s, '-');
      CommentEnds(Byte(v, s[0]), url, j + 1, s[1..], d + [s[0]], out + EsiCode.Bytes([s[0]]));
      Assoc(d, [s[0]], s[1..] + "-->");
      OutsJoin(out, false, [s[0]], s[1..] + "-->");
    } else {
      NotEsi(v, url, j, t);
      ShowsMarked(v.mk, d, out);
      var c := v.ctl.(esicmt := Cursor(NoText, 0), until := Cursor(CommentEnd, 0), until_s := NEXTTAG, state := UNTIL);
      UntilTaken(Vep(c, MarkCommon(v.mk, VERBATIM)), s);
      ShowsOn(MarkCommon(v.mk, VERBATIM), d, out, false, t);
    }
  }

  lemma EsiOn(j: nat, s: string)
    requires j <= 2 && s != [] && s[0] == At(Esi, j) && !("esi"[j..] <= s)
    ensures j < 2 && !("esi"[j + 1..] <= s[1..])
  {
    assert "esi"[j..] == [At(Esi, j)] + "esi"[j + 1..];
  }

  lemma CommentTaken(v: Vep, url: string, s: string, d: string, out: Outs)
    requires Stands(v, false, false, url, d, out) && Calm(s, '-') && !("esi" <= s)
    ensures var t := PartText(Comment(s)); var w := Bytes(v, t);
      Stands(w, false, false, url, d + t, out + EsiCode.Bytes(t)) && w.ctl.f.esi_found == v.ctl.f.esi_found
  {
    hide Byte, Bytes, Shows, MarkCommon;
    AngleTaken(v, false, false, url, d, out);
    var tail := "!--" + (s + "-->");
    BytesFirst(v, '<', tail);
    var v1 := Byte(v, '<');
    CommentBegins(v1, s + "-->");
    var v2 := Vep(Enter(AtWord(v1.ctl, false), COMMENT), Advance(v1.mk, 3));
    Passed(v1, v2, false, d, "<", "!--", out);
    assert "esi"[0..] == "esi";
    CommentEnds(v2, url, 0, s, d + ("<" + "!--"), out + EsiCode.Bytes("<" + "!--"));
    Assoc("<", "!--", s + "-->");
    Assoc(d, "<" + "!--", s + "-->");
    OutsJoin(out, false, "<" + "!--", s + "-->");
  }

  // ---- ESI tags ----

  /** Inside an ESI tag, at its keyword's state or behind it. */
  predicate InEsi(c: Ctl, hidden: bool, removed: bool, url: string) {
    && !c.f.dead && !c.f.astray && !c.f.loose && c.f.in_esi_tag && c.f.esi_found && c.f.remove == removed
    && c.match_tbl == NoTable && c.tag == "" && c.a.attr_vsb == None && c.a.attr_delim == '\0'
    && c.a.url == url && c.esicmt == Armed(hidden, 0) && !c.f.emptytag
  }

  /** From '<' to the keyword: what was read of the tag is skipped. */
  lemma HeadTaken(v: Vep, hidden: bool, removed: bool, url: string, close: bool, u: string, x: char, st: State,
                  d: string, out: Outs)
    requires Stands(v, hidden, removed, url, d, out)
    requires u != [] && MatchTable(EsiTable, u).More? && MatchTable(EsiTable, u + [x]).Hit? && x != '>'
    requires MatchTable(EsiTable, u + [x]).state == st
    ensures var s := "<" + (Slash(close) + "esi:" + (u + [x])); var w := Bytes(v, s);
      && InEsi(w.ctl, hidden, removed, url) && w.ctl.state == st && w.ctl.f.endtag == close
      && !w.ctl.a.attr && w.ctl.a.dostuff.NoDo? && w.ctl.a.include_src == None
      && Owes(w.mk, d + s, out, w.mk.cb_x)
  {
    hide Byte, Bytes, Shows, Owes, MarkCommon, MatchTable;
    AngleTaken(v, hidden, removed, url, d, out);
    var a, b := Slash(close) + "esi:", u + [x];
    BytesFirst(v, '<', a + b);
    var v1 := Byte(v, '<');
    EsiHead(v1, close, u, x, st);
    var m := Advance(v1.mk, |a|);
    OwesOn(v1.mk, d + "<", out, v1.mk.cb_x, a);
    OwesSkipped(m, d + "<" + a, out, v1.mk.cb_x);
    OwesOn(MarkCommon(m, SKIP), d + "<" + a, out, |d + "<" + a|, b);
    OwesAt(Advance(MarkCommon(m, SKIP), |b|), d + "<" + a + b, out, |d + "<" + a|);
    assert d + "<" + a + b == d + ("<" + (a + b));
    TaggedIs(v1.ctl, hidden, removed, url, close, st);
  }

  lemma TaggedIs(c: Ctl, hidden: bool, removed: bool, url: string, close: bool, st: State)
    requires Opening(c, hidden, removed, url)
    ensures var e := EsiTagged(c, close, st);
      && InEsi(e, hidden, removed, url) && e.state == st && e.f.endtag == close
      && !e.a.attr && e.a.dostuff.NoDo? && e.a.include_src == None
  {
  }

  /** The attributes taken in order. */
  function WithAttrs(c: Ctl, attrs: seq<Attr>): Ctl
    decreases |attrs|
  {
    if attrs == [] then c else WithAttrs(WithAttr(c, attrs[0]), attrs[1..])
  }

  lemma {:induction false} AttrsTaken(v: Vep, hidden: bool, removed: bool, url: string, attrs: seq<Attr>)
    requires InEsi(v.ctl, hidden, removed, url) && v.ctl.state == INTAG && GoodAttrs(attrs)
    requires v.ctl.a.attr ==> v.ctl.a.dostuff.DoInclude? && (SrcOf(attrs).Some? ==> v.ctl.a.include_src == None)
    ensures var w := Bytes(v, AttrsText(attrs));
      && InEsi(w.ctl, hidden, removed, url) && w.ctl.state == INTAG && w.mk == Advance(v.mk, |AttrsText(attrs)|)
      && w.ctl.f.endtag == v.ctl.f.endtag && w.ctl.a.dostuff == v.ctl.a.dostuff && w.ctl.a.attr == v.ctl.a.attr
      && w.ctl.a.include_src ==
         if v.ctl.a.attr && SrcOf(attrs).Some? then SrcOf(attrs) else v.ctl.a.include_src
    decreases |attrs|
  {
    hide Byte, Bytes;
    if attrs == [] {
      NoBytes(v);
      assert Advance(v.mk, 0) == v.mk;
    } else {
      var a, rest := attrs[0], attrs[1..];
      BytesJoin(v, AttrText(a), AttrsText(rest));
      OneSrc(attrs);
      AttrTaken(v, a);
      var w := Vep(WithAttr(v.ctl, a), Advance(v.mk, |AttrText(a)|));
      WithAttrIs(v.ctl, hidden, removed, url, a);
      AttrsTaken(w, hidden, removed, url, rest);
    }
  }

  lemma OneSrc(attrs: seq<Attr>)
    requires GoodAttrs(attrs) && attrs != []
    ensures GoodAttr(attrs[0]) && GoodAttrs(attrs[1..])
    ensures attrs[0].name == "src" ==> SrcOf(attrs[1..]) == None
  {
    if attrs[0].name == "src" {
      forall j | 0 <= j < |attrs[1..]| ensures attrs[1..][j].name != "src" { assert attrs[1..][j] == attrs[j + 1]; }
      NoSrc(attrs[1..]);
    }
  }

  lemma NoSrc(attrs: seq<Attr>)
    requires forall j :: 0 <= j < |attrs| ==> attrs[j].name != "src"
    ensures SrcOf(attrs) == None
  {
  }

  lemma WithAttrIs(c: Ctl, hidden: bool, removed: bool, url: string, a: Attr)
    requires InEsi(c, hidden, removed, url) && c.state == INTAG
    ensures var e := WithAttr(c, a);
      && InEsi(e, hidden, removed, url) && e.state == INTAG && e.f.endtag == c.f.endtag
      && e.a.dostuff == c.a.dostuff && e.a.attr == c.a.attr
      && e.a.include_src == if c.a.attr && a.name == "src" then Some(a.value) else c.a.include_src
  {
  }

  /** The end of a tag without attributes or behind them. */
  lemma TagEnds(v: Vep, hidden: bool, removed: bool, url: string, slash: bool)
    requires InEsi(v.ctl, hidden, removed, url) && v.ctl.state == INTAG
    ensures var c := if slash then v.ctl.(f := v.ctl.f.(emptytag := true, canattr := false)) else v.ctl;
      Bytes(v, EndText(slash)) == Byte(Vep(c, Advance(v.mk, |EndText(slash)| - 1)), '>')
  {
    if slash {
      ByteLoops(v, '/');
      BytesFirst(v, '/', ">");
      BytesOne(Byte(v, '/'), '>');
      assert "/>" == ['/'] + ">";
    } else {
      BytesOne(v, '>');
      assert Advance(v.mk, 0) == v.mk;
    }
    hide Byte, Bytes;
  }

  lemma IncludeEnds(v: Vep, hidden: bool, url: string, slash: bool, d: string, out: Outs)
    requires InEsi(v.ctl, hidden, false, url) && v.ctl.state == INTAG && v.ctl.a.dostuff.DoInclude?
    requires Owes(v.mk, d, out, v.mk.cb_x) && (v.ctl.a.include_src.Some? ==> IncludeOK(v.ctl.a.include_src.value))
    ensures var w := Bytes(v, EndText(slash)); var src := v.ctl.a.include_src;
      && w.ctl.f.esi_found
      && Stands(w, hidden, false, url, d + EndText(slash),
                if src.None? then out
                else out + [EsiCode.Child(EsiCode.IncludeOf(src.value, url).0, EsiCode.IncludeOf(src.value, url).1)])
  {
    hide Bytes, Byte, Shows, Owes, MarkCommon, IncludeOK, EmitInstr;
    var e := EndText(slash);
    TagEnds(v, hidden, false, url, slash);
    var c := if slash then v.ctl.(f := v.ctl.f.(emptytag := true, canattr := false)) else v.ctl;
    var v1 := Vep(c, Advance(v.mk, |e| - 1));
    ByteEats(v1, '>');
    OwesOn(v.mk, d, out, v.mk.cb_x, e);
    var m := Advance(v.mk, |e|);
    assert Advance(v1.mk, 1) == m;
    OwesSkipped(m, d + e, out, v.mk.cb_x);
    assert Advance(MarkCommon(m, SKIP), 0) == MarkCommon(m, SKIP);
    if v.ctl.a.include_src.Some? {
      OwesIncluded(MarkCommon(m, SKIP), d + e, out, EsiMarks.Include(v.ctl.a.include_src.value, url));
    }
  }

  lemma RemarkEnds(v: Vep, hidden: bool, url: string, slash: bool, d: string, out: Outs)
    requires InEsi(v.ctl, hidden, false, url) && v.ctl.state == INTAG && v.ctl.a.dostuff.DoComment?
    requires v.ctl.a.include_src == None && Owes(v.mk, d, out, v.mk.cb_x)
    ensures var w := Bytes(v, EndText(slash));
      w.ctl.f.esi_found && Stands(w, hidden, false, url, d + EndText(slash), out)
  {
    hide Bytes, Byte, Shows, Owes, MarkCommon;
    var e := EndText(slash);
    TagEnds(v, hidden, false, url, slash);
    var c := if slash then v.ctl.(f := v.ctl.f.(emptytag := true, canattr := false)) else v.ctl;
    var v1 := Vep(c, Advance(v.mk, |e| - 1));
    ByteEats(v1, '>');
    OwesOn(v.mk, d, out, v.mk.cb_x, e);
    var m := Advance(v.mk, |e|);
    assert Advance(v1.mk, 1) == m;
    OwesSkipped(m, d + e, out, v.mk.cb_x);
    assert Advance(MarkCommon(m, SKIP), 0) == MarkCommon(m, SKIP);
  }

  /** The states of includes and remarks, outside removed parts and in them. */
  lemma ToInTag(v: Vep, hidden: bool, url: string, s: string)
    requires InEsi(v.ctl, hidden, false, url) && !v.ctl.f.endtag && s != []
    requires v.ctl.state == ESIINCLUDE || v.ctl.state == ESICOMMENT
    ensures Bytes(v, s) == Bytes(Vep(
      if v.ctl.state == ESIINCLUDE then v.ctl.(a := v.ctl.a.(dostuff := DoInclude, attr := true), state := INTAG)
      else v.ctl.(a := v.ctl.a.(dostuff := DoComment), state := INTAG), v.mk), s)
  {
    hide Byte, Bytes;
    assert Advance(v.mk, 0) == v.mk;
    BytesPass(v, s);
  }

  lemma ToTagError(v: Vep, hidden: bool, removed: bool, url: string, s: string)
    requires InEsi(v.ctl, hidden, removed, url) && s != [] && (removed || v.ctl.f.endtag)
    requires v.ctl.state == ESIINCLUDE || v.ctl.state == ESICOMMENT
    ensures Bytes(v, s) == Bytes(Vep(v.ctl.(state := TAGERROR), v.mk), s)
  {
    hide Byte, Bytes;
    assert Advance(v.mk, 0) == v.mk;
    BytesPass(v, s);
  }

  /** A tag that may not stand where it does is skipped to its end. */
  lemma ErrorEnds(v: Vep, hidden: bool, removed: bool, url: string, s: string, d: string, out: Outs)
    requires InEsi(v.ctl, hidden, removed, url) && v.ctl.state == TAGERROR && '>' !in s && v.ctl.a.include_src == None
    requires Owes(v.mk, d, out, v.mk.cb_x)
    ensures var w := Bytes(v, s + ">");
      w.ctl.f.esi_found && Stands(w, hidden, removed, url, d + (s + ">"), out)
  {
    hide Byte, Bytes, Shows, Owes, MarkCommon;
    SkimError(v, s);
    BytesJoin(v, s, ">");
    var v1 := Vep(v.ctl, Advance(v.mk, |s|));
    BytesOne(v1, '>');
    ByteEats(v1, '>');
    OwesOn(v.mk, d, out, v.mk.cb_x, s + ">");
    var m := Advance(v.mk, |s| + 1);
    OwesSkipped(m, d + (s + ">"), out, v.mk.cb_x);
    assert Advance(MarkCommon(m, SKIP), 0) == MarkCommon(m, SKIP);
  }

  lemma SkimError(v: Vep, s: string)
    requires v.ctl.state == TAGERROR && !v.ctl.f.dead && '>' !in s
    ensures Bytes(v, s) == Vep(v.ctl, Advance(v.mk, |s|))
  {
    BytesSkim(v, s);
  }

  lemma {:induction false} NoEndInAttrs(attrs: seq<Attr>)
    requires GoodAttrs(attrs)
    ensures '>' !in AttrsText(attrs)
  {
    if attrs != [] {
      OneSrc(attrs);
      NoEndInAttr(attrs[0]);
      NoEndInAttrs(attrs[1..]);
    }
  }

  lemma NoEndInAttr(a: Attr)
    requires GoodAttr(a)
    ensures '>' !in AttrText(a)
  {
    forall i | 0 <= i < |a.name| ensures a.name[i] != '>' { XmlNameIsNoEnd(a.name[i]); }
    hide IsXmlName, IsXmlNameStart;
  }

  lemma IncludeTaken(v: Vep, hidden: bool, removed: bool, url: string, attrs: seq<Attr>, slash: bool, d: string,
                     out: Outs)
    requires Stands(v, hidden, removed, url, d, out) && GoodPart(Part.Include(attrs, slash), hidden, removed)
    ensures var p := Part.Include(attrs, slash); var w := Bytes(v, PartText(p));
      && w.ctl.f.esi_found
      && Stands(w, hidden, removed, url, d + PartText(p), out + if removed then [] else PartMeaning(p, url))
  {
    hide Byte, Bytes, Shows, Owes, MarkCommon, MatchTable, EsiCode.IncludeOf, IncludeOK;
    EsiWords();
    HeadTaken(v, hidden, removed, url, false, "includ", 'e', ESIINCLUDE, d, out);
    var head, tail := "<" + "esi:include", AttrsText(attrs) + EndText(slash);
    assert "<" + (Slash(false) + "esi:" + ("includ" + ['e'])) == head;
    Assoc("<", "esi:include", tail);
    Assoc(d, head, tail);
    BytesJoin(v, head, tail);
    var v1 := Bytes(v, head);
    NoOuts(out);
    if removed {
      RemovedTag(v1, hidden, url, attrs, slash, d + head, out);
    } else {
      ToInTag(v1, hidden, url, tail);
      var v2 := Vep(v1.ctl.(a := v1.ctl.a.(dostuff := DoInclude, attr := true), state := INTAG), v1.mk);
      AttrsTaken(v2, hidden, removed, url, attrs);
      BytesJoin(v2, AttrsText(attrs), EndText(slash));
      var v3 := Bytes(v2, AttrsText(attrs));
      OwesOn(v1.mk, d + head, out, v1.mk.cb_x, AttrsText(attrs));
      IncludeEnds(v3, hidden, url, slash, d + head + AttrsText(attrs), out);
      Assoc(d + head, AttrsText(attrs), EndText(slash));
    }
  }

  /** Includes and remarks in a removed part are skipped as errors. */
  lemma RemovedTag(v: Vep, hidden: bool, url: string, attrs: seq<Attr>, slash: bool, d: string, out: Outs)
    requires InEsi(v.ctl, hidden, true, url) && GoodAttrs(attrs) && v.ctl.a.include_src == None
    requires v.ctl.state == ESIINCLUDE || v.ctl.state == ESICOMMENT
    requires Owes(v.mk, d, out, v.mk.cb_x)
    ensures var s := AttrsText(attrs) + EndText(slash); var w := Bytes(v, s);
      w.ctl.f.esi_found && Stands(w, hidden, true, url, d + s, out)
  {
    hide Byte, Bytes, Shows, Owes;
    var t := AttrsText(attrs) + if slash then "/" else "";
    assert AttrsText(attrs) + EndText(slash) == t + ">";
    ToTagError(v, hidden, true, url, t + ">");
    NoEndInAttrs(attrs);
    ErrorEnds(Vep(v.ctl.(state := TAGERROR), v.mk), hidden, true, url, t, d, out);
  }

  lemma RemarkTaken(v: Vep, hidden: bool, removed: bool, url: string, attrs: seq<Attr>, slash: bool, d: string,
                    out: Outs)
    requires Stands(v, hidden, removed, url, d, out) && GoodPart(Remark(attrs, slash), hidden, removed)
    ensures var t := PartText(Remark(attrs, slash)); var w := Bytes(v, t);
      w.ctl.f.esi_found && Stands(w, hidden, removed, url, d + t, out)
  {
    hide Byte, Bytes, Shows, Owes, MarkCommon, MatchTable;
    EsiWords();
    HeadTaken(v, hidden, removed, url, false, "commen", 't', ESICOMMENT, d, out);
    var head, tail := "<" + "esi:comment", AttrsText(attrs) + EndText(slash);
    assert "<" + (Slash(false) + "esi:" + ("commen" + ['t'])) == head;
    Assoc("<", "esi:comment", tail);
    Assoc(d, head, tail);
    BytesJoin(v, head, tail);
    var v1 := Bytes(v, head);
    if removed {
      RemovedTag(v1, hidden, url, attrs, slash, d + head, out);
    } else {
      ToInTag(v1, hidden, url, tail);
      var v2 := Vep(v1.ctl.(a := v1.ctl.a.(dostuff := DoComment), state := INTAG), v1.mk);
      AttrsTaken(v2, hidden, removed, url, attrs);
      BytesJoin(v2, AttrsText(attrs), EndText(slash));
      var v3 := Bytes(v2, AttrsText(attrs));
      OwesOn(v1.mk, d + head, out, v1.mk.cb_x, AttrsText(attrs));
      RemarkEnds(v3, hidden, url, slash, d + head + AttrsText(attrs), out);
      Assoc(d + head, AttrsText(attrs), EndText(slash));
    }
  }

  lemma StrayTaken(v: Vep, hidden: bool, removed: bool, url: string, remark: bool, t: string, d: string, out: Outs)
    requires Stands(v, hidden, removed, url, d, out) && '>' !in t
    ensures var s := PartText(Stray(remark, t)); var w := Bytes(v, s);
      w.ctl.f.esi_found && Stands(w, hidden, removed, url, d + s, out)
  {
    hide Byte, Bytes, Shows, Owes, MarkCommon, MatchTable;
    EsiWords();
    var word := if remark then "/esi:comment" else "/esi:include";
    if remark {
      HeadTaken(v, hidden, removed, url, true, "commen", 't', ESICOMMENT, d, out);
      assert "<" + (Slash(true) + "esi:" + ("commen" + ['t'])) == "<" + word;
    } else {
      HeadTaken(v, hidden, removed, url, true, "includ", 'e', ESIINCLUDE, d, out);
      assert "<" + (Slash(true) + "esi:" + ("includ" + ['e'])) == "<" + word;
    }
    Assoc("<", word, t + ">");
    Assoc(d, "<" + word, t + ">");
    BytesJoin(v, "<" + word, t + ">");
    var v1 := Bytes(v, "<" + word);
    ToTagError(v1, hidden, removed, url, t + ">");
    ErrorEnds(Vep(v1.ctl.(state := TAGERROR), v1.mk), hidden, removed, url, t, d + ("<" + word), out);
  }

  lemma BogusTaken(v: Vep, hidden: bool, removed: bool, url: string, t: string, d: string, out: Outs)
    requires Stands(v, hidden, removed, url, d, out) && '>' !in t && EsiFree(t)
    ensures var s := PartText(Bogus(t)); var w := Bytes(v, s);
      w.ctl.f.esi_found && Stands(w, hidden, removed, url, d + s, out)
  {
    hide Byte, Bytes, Shows, Owes, MarkCommon, MatchTable;
    AngleTaken(v, hidden, removed, url, d, out);
    BytesFirst(v, '<', "esi:" + (t + ">"));
    var v1 := Byte(v, '<');
    BytesJoin(v1, "esi:", t + ">");
    EsiColon(v1, false);
    assert Slash(false) + "esi:" == "esi:";
    var m := Advance(v1.mk, 4);
    OwesOn(v1.mk, d + "<", out, v1.mk.cb_x, "esi:");
    OwesSkipped(m, d + "<" + "esi:", out, v1.mk.cb_x);
    OwesOn(MarkCommon(m, SKIP), d + "<" + "esi:", out, |d + "<" + "esi:"|, t);
    var v2 := Vep(Enter(AtWord(v1.ctl, false), ESITAG), m);
    BogusBegins(v2, t);
    var v3 := Vep(Enter(AtEsiWord(v2.ctl), TAGERROR), Advance(MarkCommon(m, SKIP), |t|));
    OwesAt(v3.mk, d + "<" + "esi:" + t, out, |d + "<" + "esi:"|);
    assert "" + ">" == ">";
    ErrorEnds(v3, hidden, removed, url, "", d + "<" + "esi:" + t, out);
    assert d + "<" + "esi:" + t + ">" == d + ("<" + ("esi:" + (t + ">")));
  }

  /** The parser about to look for a keyword of ESI's. */
  function AtEsiWord(c: Ctl): Ctl {
    c.(f := c.f.(in_esi_tag := true, esi_found := true), match_tbl := EsiTable, state := MATCH)
  }

  lemma BogusBegins(v: Vep, t: string)
    requires v.ctl.state == ESITAG && !v.ctl.f.dead && '>' !in t && EsiFree(t)
    ensures Bytes(v, t + ">") ==
      Bytes(Vep(Enter(AtEsiWord(v.ctl), TAGERROR), Advance(MarkCommon(v.mk, SKIP), |t|)), ">")
  {
    hide Byte, Bytes, MarkCommon, MatchTable;
    ToEsiWord(v, t + ">");
    EsiWordFails(Vep(AtEsiWord(v.ctl), MarkCommon(v.mk, SKIP)), t);
  }

  lemma ToEsiWord(v: Vep, s: string)
    requires v.ctl.state == ESITAG && !v.ctl.f.dead && s != []
    ensures Bytes(v, s) == Bytes(Vep(AtEsiWord(v.ctl), MarkCommon(v.mk, SKIP)), s)
  {
    hide Byte, Bytes, MarkCommon;
    assert Advance(v.mk, 0) == v.mk && Advance(MarkCommon(v.mk, SKIP), 0) == MarkCommon(v.mk, SKIP);
    BytesPass(v, s);
  }

  // ---- removed parts ----

  /** <esi:remove> and </esi:remove> switch. */
  lemma RemoveTaken(v: Vep, hidden: bool, removed: bool, url: string, d: string, out: Outs)
    requires Stands(v, hidden, removed, url, d, out)
    ensures var t := if removed then CLOSEREMOVE else OPENREMOVE; var w := Bytes(v, t);
      w.ctl.f.esi_found && Stands(w, hidden, !removed, url, d + t, out)
  {
    hide Byte, Bytes, Shows, Owes, MarkCommon, MatchTable;
    EsiWords();
    HeadTaken(v, hidden, removed, url, removed, "remov", 'e', ESIREMOVE, d, out);
    var head := "<" + (Slash(removed) + "esi:" + ("remov" + ['e']));
    assert (if removed then CLOSEREMOVE else OPENREMOVE) == head + ">";
    BytesJoin(v, head, ">");
    var v1 := Bytes(v, head);
    ToRemove(v1, hidden, removed, url);
    Assoc(d, head, ">");
    OwesOn(v1.mk, d + head, out, v1.mk.cb_x, ">");
    OwesSkipped(Advance(v1.mk, 1), d + head + ">", out, v1.mk.cb_x);
  }

  lemma ToRemove(v: Vep, hidden: bool, removed: bool, url: string)
    requires InEsi(v.ctl, hidden, removed, url) && v.ctl.state == ESIREMOVE && v.ctl.f.endtag == removed
    requires v.ctl.a.include_src == None
    ensures var w := Bytes(v, ">");
      && Ready(w.ctl, hidden, !removed, url, 0) && w.ctl.f.esi_found
      && w.mk == MarkCommon(Advance(v.mk, 1), SKIP)
  {
    hide Byte, Bytes, MarkCommon;
    BytesOne(v, '>');
    BytePasses(v, '>');
    var w := Vep(v.ctl.(a := v.ctl.a.(dostuff := DoRemove), state := INTAG), v.mk);
    assert Advance(v.mk, 0) == v.mk;
    ByteEats(w, '>');
    assert Advance(MarkCommon(Advance(v.mk, 1), SKIP), 0) == MarkCommon(Advance(v.mk, 1), SKIP);
  }

  // ---- ESI comments ----

  lemma HideOpened(v: Vep, removed: bool, url: string, d: string, out: Outs)
    requires Stands(v, false, removed, url, d, out)
    ensures var w := Bytes(v, OPENCOMMENT);
      Stands(w, true, removed, url, d + OPENCOMMENT, out) && w.ctl.f.esi_found == v.ctl.f.esi_found
  {
    hide Byte, Bytes, Shows, Owes, MarkCommon;
    AngleTaken(v, false, removed, url, d, out);
    BytesFirst(v, '<', "!--" + "esi");
    var v1 := Byte(v, '<');
    CommentBegins(v1, "esi");
    var v2 := Vep(Enter(AtWord(v1.ctl, false), COMMENT), Advance(v1.mk, 3));
    EsiSpelled(v2, removed, url);
    OwesOn(v1.mk, d + "<", out, v1.mk.cb_x, "!--" + "esi");
    OwesSkipped(Advance(v1.mk, 6), d + "<" + ("!--" + "esi"), out, v1.mk.cb_x);
    Assoc(d, "<", "!--" + "esi");
  }

  lemma EsiSpelled(v: Vep, removed: bool, url: string)
    requires Undecided(v.ctl, removed, url, 0)
    ensures var w := Bytes(v, "esi");
      && Ready(w.ctl, true, removed, url, 0) && w.ctl.f.esi_found == v.ctl.f.esi_found
      && w.mk == MarkCommon(Advance(v.mk, 3), SKIP)
  {
    hide Byte, Bytes, MarkCommon;
    assert "esi" == ['e'] + (['s'] + ['i']);
    BytesFirst(v, 'e', ['s'] + ['i']);
    UndecidedOne(v, removed, url, 0);
    var v1 := Byte(v, 'e');
    BytesFirst(v1, 's', ['i']);
    UndecidedOne(v1, removed, url, 1);
    var v2 := Byte(v1, 's');
    BytesOne(v2, 'i');
    ByteEats(v2, 'i');
    assert Advance(v2.mk, 1) == Advance(v.mk, 3);
    assert Advance(MarkCommon(Advance(v.mk, 3), SKIP), 0) == MarkCommon(Advance(v.mk, 3), SKIP);
  }

  lemma HideClosed(v: Vep, removed: bool, url: string, d: string, out: Outs)
    requires Stands(v, true, removed, url, d, out)
    ensures var w := Bytes(v, CLOSECOMMENT);
      Stands(w, false, removed, url, d + CLOSECOMMENT, out) && w.ctl.f.esi_found
  {
    hide Byte, Bytes, Shows, Owes, MarkCommon;
    var m := if removed then v.mk else MarkCommon(v.mk, VERBATIM);
    DashesTaken(v, removed, url, m);
    if removed {
      RemovedOwes(v.mk, d, out);
    } else {
      ShowsMarked(v.mk, d, out);
      OwesAt(m, d, out, |d|);
    }
    OwesOn(m, d, out, m.cb_x, "-->");
    OwesSkipped(Advance(m, 3), d + "-->", out, m.cb_x);
  }

  lemma DashesTaken(v: Vep, removed: bool, url: string, m: Marks)
    requires Ready(v.ctl, true, removed, url, 0) && m == if removed then v.mk else MarkCommon(v.mk, VERBATIM)
    ensures var w := Bytes(v, "-->");
      && Ready(w.ctl, false, removed, url, 0) && w.ctl.f.esi_found && w.mk == MarkCommon(Advance(m, 3), SKIP)
  {
    hide Byte, Bytes, MarkCommon;
    assert "-->" == ['-'] + (['-'] + ['>']);
    BytesFirst(v, '-', ['-'] + ['>']);
    DashOne(v, removed, url, m);
    var v1 := Byte(v, '-');
    BytesFirst(v1, '-', ['>']);
    DashTwo(v1, removed, url);
    var v2 := Byte(v1, '-');
    BytesOne(v2, '>');
    DashEnd(v2, removed, url);
    assert Advance(v2.mk, 1) == Advance(m, 3);
  }

  lemma DashOne(v: Vep, removed: bool, url: string, m: Marks)
    requires Ready(v.ctl, true, removed, url, 0) && m == if removed then v.mk else MarkCommon(v.mk, VERBATIM)
    ensures var w := Byte(v, '-'); Ready(w.ctl, true, removed, url, 1) && w.mk == Advance(m, 1)
  {
    ByteLoops(v, '-');
    hide Byte, MarkCommon;
    assert Advance(v.mk, 0) == v.mk;
  }

  lemma DashTwo(v: Vep, removed: bool, url: string)
    requires Ready(v.ctl, true, removed, url, 1)
    ensures var w := Byte(v, '-'); Ready(w.ctl, true, removed, url, 2) && w.mk == Advance(v.mk, 1)
  {
    ByteLoops(v, '-');
    hide Byte, MarkCommon;
    assert Advance(v.mk, 0) == v.mk;
  }

  lemma DashEnd(v: Vep, removed: bool, url: string)
    requires Ready(v.ctl, true, removed, url, 2)
    ensures var w := Byte(v, '>');
      Ready(w.ctl, false, removed, url, 0) && w.ctl.f.esi_found && w.mk == MarkCommon(Advance(v.mk, 1), SKIP)
  {
    ByteLoops(v, '>');
    hide Byte, MarkCommon;
    assert Advance(MarkCommon(Advance(v.mk, 1), SKIP), 0) == MarkCommon(Advance(v.mk, 1), SKIP);
  }
}
