/** The instructions for a document say what the document means, however it was cut. */
module EsiMeaning {
  import opened Wrappers
  import opened Vct
  import opened Seqs
  import opened EsiMarks
  import opened EsiStep
  import opened EsiParse
  import opened EsiSplit
  import opened EsiViews
  import opened EsiTags
  import opened EsiDocument
  import EsiCode
  import EsiExact
  import EsiWhole
  import Endian

  lemma PartTaken(v: Vep, hidden: bool, removed: bool, url: string, p: Part, d: string, out: Outs)
    requires Stands(v, hidden, removed, url, d, out) && GoodPart(p, hidden, removed)
    ensures var w := Bytes(v, PartText(p));
      && Stands(w, hidden, removed, url, d + PartText(p), out + if removed then [] else PartMeaning(p, url))
      && w.ctl.f.esi_found == (v.ctl.f.esi_found || IsEsi(p))
  {
    hide Stands, Bytes;
    NoOuts(out);
    match p
    case Text(s) => PlainText(v, hidden, removed, url, s, d, out);
    case Tag(t) => TagTaken(v, hidden, removed, url, t, d, out);
    case Comment(s) => CommentTaken(v, url, s, d, out);
    case Cdata(s) => CdataTaken(v, hidden, removed, url, s, d, out);
    case Include(attrs, slash) => IncludeTaken(v, hidden, removed, url, attrs, slash, d, out);
    case Remark(attrs, slash) => RemarkTaken(v, hidden, removed, url, attrs, slash, d, out);
    case Bogus(t) => BogusTaken(v, hidden, removed, url, t, d, out);
    case Stray(remark, t) => StrayTaken(v, hidden, removed, url, remark, t, d, out);
  }

  lemma PlainText(v: Vep, hidden: bool, removed: bool, url: string, s: string, d: string, out: Outs)
    requires Stands(v, hidden, removed, url, d, out) && GoodPart(Text(s), hidden, removed)
    ensures var w := Bytes(v, s);
      && Stands(w, hidden, removed, url, d + s, out + if removed then [] else EsiCode.Bytes(s))
      && w.ctl.f.esi_found == v.ctl.f.esi_found
  {
    TextTaken(v, hidden, removed, url, 0, s, d, out);
  }

  lemma {:induction false} DocTaken(v: Vep, hidden: bool, removed: bool, url: string, doc: Doc, d: string, out: Outs)
    requires Stands(v, hidden, removed, url, d, out) && Good(doc, hidden, removed)
    ensures var w := Bytes(v, Source(doc));
      && Stands(w, hidden, removed, url, d + Source(doc), out + if removed then [] else Meaning(doc, url))
      && w.ctl.f.esi_found == (v.ctl.f.esi_found || HasEsi(doc))
    decreases doc
  {
    hide Stands, Bytes, GoodPart;
    match doc
    case Done =>
      NoBytes(v);
      NoOuts(out);
      assert d + "" == d;
    case Piece(p, rest) =>
      var s, t := PartText(p), Source(rest);
      var sent := if removed then [] else PartMeaning(p, url);
      PartTaken(v, hidden, removed, url, p, d, out);
      BytesJoin(v, s, t);
      DocTaken(Bytes(v, s), hidden, removed, url, rest, d + s, out + sent);
      Assoc(d, s, t);
      Assoc(out, sent, if removed then [] else Meaning(rest, url));
    case Removed(inner, rest) =>
      var t, s := CLOSEREMOVE + Source(rest), Source(inner);
      RemoveTaken(v, hidden, removed, url, d, out);
      BytesJoin(v, OPENREMOVE, s + t);
      var v1 := Bytes(v, OPENREMOVE);
      DocTaken(v1, hidden, true, url, inner, d + OPENREMOVE, out);
      BytesJoin(v1, s, t);
      var v2 := Bytes(v1, s);
      NoOuts(out);
      RemoveTaken(v2, hidden, true, url, d + OPENREMOVE + s, out);
      BytesJoin(v2, CLOSEREMOVE, Source(rest));
      DocTaken(Bytes(v2, CLOSEREMOVE), hidden, false, url, rest, d + OPENREMOVE + s + CLOSEREMOVE, out);
      Assoc4(d, OPENREMOVE, s, CLOSEREMOVE, Source(rest));
    case Hidden(inner, rest) =>
      var t, s := CLOSECOMMENT + Source(rest), Source(inner);
      HideOpened(v, removed, url, d, out);
      BytesJoin(v, OPENCOMMENT, s + t);
      var v1 := Bytes(v, OPENCOMMENT);
      var sent := if removed then [] else Meaning(inner, url);
      DocTaken(v1, true, removed, url, inner, d + OPENCOMMENT, out);
      BytesJoin(v1, s, t);
      var v2 := Bytes(v1, s);
      HideClosed(v2, removed, url, d + OPENCOMMENT + s, out + sent);
      BytesJoin(v2, CLOSECOMMENT, Source(rest));
      DocTaken(Bytes(v2, CLOSECOMMENT), false, removed, url, rest, d + OPENCOMMENT + s + CLOSECOMMENT, out + sent);
      Assoc4(d, OPENCOMMENT, s, CLOSECOMMENT, Source(rest));
      Assoc(out, sent, if removed then [] else Meaning(rest, url));
  }

  lemma Assoc4(a: string, b: string, c: string, d: string, e: string)
    ensures a + b + c + d + e == a + (b + (c + (d + e)))
  {
  }

  // ---- where a document begins ----

  function AfterBlanks(s: string): string {
    if s != [] && IsLws(s[0]) then AfterBlanks(s[1..]) else s
  }

  /** The first byte that is not white space opens a tag. */
  predicate LooksLikeXml(s: string) { AfterBlanks(s) != [] && AfterBlanks(s)[0] == '<' }

  /** The parser in its first states, with `n` bytes behind it. */
  function Fresh(url: string, st: State, n: nat): Vep {
    Vep(Init(url).ctl.(state := st), Advance(Init(url).mk, n))
  }

  lemma BlankTaken(url: string, st: State, n: nat, b: char)
    requires (st == START || st == TESTXML) && IsLws(b)
    ensures Byte(Fresh(url, st, n), b) == Fresh(url, TESTXML, n + 1)
    ensures Byte(Fresh(url, NEXTTAG, n), b) == Fresh(url, NEXTTAG, n + 1)
  {
    hide MarkCommon;
    var v := Fresh(url, TESTXML, n);
    assert Advance(Init(url).mk, n + 1) == Advance(v.mk, 1) && Advance(v.mk, 0) == v.mk;
    if st == START { BytePasses(Fresh(url, START, n), b); }
    ByteLoops(v, b);
    ByteLoops(Fresh(url, NEXTTAG, n), b);
  }

  lemma FirstAngle(url: string, st: State, n: nat)
    requires st == START || st == TESTXML
    ensures Byte(Fresh(url, st, n), '<') == Byte(Fresh(url, NEXTTAG, n), '<')
  {
    hide MarkCommon;
    var v := Fresh(url, TESTXML, n);
    assert Advance(v.mk, 0) == v.mk;
    if st == START { BytePasses(Fresh(url, START, n), '<'); }
    ByteEats(v, '<');
    ByteEats(Fresh(url, NEXTTAG, n), '<');
  }

  /** A document that looks like XML is read as if the parser had been looking for a tag from the start. */
  lemma {:induction false} XmlBegins(url: string, st: State, n: nat, s: string)
    requires (st == START || st == TESTXML) && LooksLikeXml(s)
    ensures Bytes(Fresh(url, st, n), s) == Bytes(Fresh(url, NEXTTAG, n), s)
    decreases |s|
  {
    hide Byte, Fresh;
    assert s != [] && s == [s[0]] + s[1..];
    BytesFirst(Fresh(url, st, n), s[0], s[1..]);
    BytesFirst(Fresh(url, NEXTTAG, n), s[0], s[1..]);
    if IsLws(s[0]) {
      BlankTaken(url, st, n, s[0]);
      XmlBegins(url, TESTXML, n + 1, s[1..]);
    } else {
      FirstAngle(url, st, n);
    }
  }

  lemma FreshStands(url: string)
    ensures Stands(Fresh(url, NEXTTAG, 0), false, false, url, "", []) && Fresh(url, START, 0) == Init(url)
  {
    var mk := Init(url).mk;
    assert Advance(mk, 0) == mk;
    assert EsiExact.Emitted(mk) == [] && EsiCode.Span([]) == 0;
  }

  /** After all of a document. */
  lemma DocumentRead(url: string, doc: Doc)
    requires Good(doc, false, false) && LooksLikeXml(Source(doc))
    ensures var w := Bytes(Init(url), Source(doc));
      Stands(w, false, false, url, Source(doc), Meaning(doc, url)) && w.ctl.f.esi_found == HasEsi(doc)
  {
    hide Bytes, Stands;
    FreshStands(url);
    XmlBegins(url, START, 0, Source(doc));
    DocTaken(Fresh(url, NEXTTAG, 0), false, false, url, doc, "", []);
    assert "" + Source(doc) == Source(doc) && [] + Meaning(doc, url) == Meaning(doc, url);
  }

  /** What a settled parser hands over, when it stands at text. */
  lemma FinishIs(x: Vep, w: Vep, url: string, d: string, out: Outs)
    requires Sim(x, w) && Between(x) && Stands(w, false, false, url, d, out) && d != ""
    ensures Finish(x).Some? <==> w.ctl.f.esi_found
    ensures Finish(x).Some? ==>
      EsiCode.Span(Finish(x).value) == |d| && EsiCode.Render(Finish(x).value, d) == out
  {
    hide MarkCommon, EsiExact.Emitted, EsiCode.Render, EsiCode.Span, Finish;
    var m := MarkCommon(w.mk, VERBATIM);
    assert FateOf(w.ctl) == Verb && MarkCommon(x.mk, VERBATIM) == m;
    FinishSettled(x, VERBATIM);
    MarkSettles(w.mk);
    EsiExact.FinishEmits(x.(mk := m));
    ShowsMarked(w.mk, d, out);
    OwesMeans(m, d, out);
  }

  lemma MarkSettles(mk: Marks)
    ensures MarkCommon(mk, VERBATIM).o_pending == 0
  {
  }

  lemma OwesMeans(mk: Marks, d: string, out: Outs)
    requires Owes(mk, d, out, |d|) && d != ""
    ensures EsiExact.Emitted(mk) != []
    ensures EsiCode.Span(EsiExact.Emitted(mk)) == |d| && EsiCode.Render(EsiExact.Emitted(mk), d) == out
  {
    EmittedSpan(mk);
  }

  /** However a document is cut, no assertion fails; there are instructions exactly if it has any ESI in it; and
      carried out, they send what the document means. */
  lemma DocumentMeans(url: string, doc: Doc, pieces: seq<string>)
    requires Good(doc, false, false) && LooksLikeXml(Source(doc))
    requires AllNonEmpty(pieces) && Flat(pieces) == Source(doc)
    ensures var w := Feed(Init(url), pieces);
      && !w.ctl.f.dead && (Finish(w).Some? <==> HasEsi(doc))
      && (Finish(w).Some? ==>
            && EsiCode.Span(Finish(w).value) == |Source(doc)|
            && EsiCode.Render(Finish(w).value, Source(doc)) == Meaning(doc, url))
  {
    hide Bytes, Feed, Finish, Meaning, EsiCode.Render, EsiCode.Span;
    InitBetween(url);
    FeedIsBytes(Init(url), pieces);
    DocumentRead(url, doc);
    XmlIsSome(Source(doc));
    FinishIs(Feed(Init(url), pieces), Bytes(Init(url), Source(doc)), url, Source(doc), Meaning(doc, url));
  }

  lemma XmlIsSome(s: string)
    requires LooksLikeXml(s)
    ensures s != ""
  {
  }

  // ---- documents that are not XML ----

  lemma {:induction false} NotXmlBytes(v: Vep, s: string)
    requires !v.ctl.f.dead && !v.ctl.f.esi_found
    requires v.ctl.state == NOTXML || ((v.ctl.state == START || v.ctl.state == TESTXML) && !LooksLikeXml(s))
    ensures !Bytes(v, s).ctl.f.esi_found && !Bytes(v, s).ctl.f.dead
    decreases |s|
  {
    hide Byte;
    if s != [] {
      NotXmlByte(v, s[0]);
      NotXmlBytes(Byte(v, s[0]), s[1..]);
    }
  }

  lemma NotXmlByte(v: Vep, b: char)
    requires !v.ctl.f.dead && (v.ctl.state == NOTXML || ((v.ctl.state == START || v.ctl.state == TESTXML) && b != '<'))
    ensures var w := Byte(v, b);
      && !w.ctl.f.dead && w.ctl.f.esi_found == v.ctl.f.esi_found
      && w.ctl.state == if v.ctl.state == NOTXML || !IsLws(b) then NOTXML else TESTXML
  {
    hide MarkCommon;
    var v1 := if v.ctl.state == START then Move(v, Just(v.ctl.(state := TESTXML))) else v;
    if v.ctl.state == START { BytePasses(v, b); }
    if v1.ctl.state == TESTXML && !IsLws(b) {
      BytePasses(v1, b);
      ByteLoops(Move(v1, ExitOne(v1.ctl, b)), b);
    } else {
      ByteLoops(v1, b);
    }
  }

  /** A document whose first byte other than white space opens no tag is never taken for ESI. */
  lemma NotXmlMeansNothing(url: string, pieces: seq<string>)
    requires AllNonEmpty(pieces) && !LooksLikeXml(Flat(pieces))
    ensures var w := Feed(Init(url), pieces); !w.ctl.f.dead && Finish(w) == None
  {
    hide Bytes, Feed;
    InitBetween(url);
    FeedIsBytes(Init(url), pieces);
    NotXmlBytes(Init(url), Flat(pieces));
    SimMeans(Feed(Init(url), pieces), Bytes(Init(url), Flat(pieces)));
  }

  // ---- end to end ----

  /** A document with ESI in it, parsed in any pieces and delivered from storage cut in any other way: the client
      gets what it means. */
  method DeliverDocument(url: string, ghost doc: Doc, ghost pieces: seq<string>, store: seq<string>, codes: string)
    returns (out: Outs)
    requires Good(doc, false, false) && LooksLikeXml(Source(doc)) && HasEsi(doc)
    requires AllNonEmpty(pieces) && Flat(pieces) == Source(doc) == Flat(store) && |Source(doc)| <= Endian.SSIZE_MAX
    requires var r := Finish(Feed(Init(url), pieces)); r.Some? ==> codes == EsiCode.EncodeAll(r.value)
    ensures out == Meaning(doc, url)
  {
    DocumentMeans(url, doc, pieces);
    ghost var code := Finish(Feed(Init(url), pieces)).value;
    hide Feed, Finish, Meaning, EsiCode.EncodeAll, EsiCode.Render;
    ghost var left;
    out, left := EsiWhole.DeliverParsed(url, pieces, store, codes, code);
  }
}
