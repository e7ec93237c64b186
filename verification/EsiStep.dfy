/** The ESI parser as a machine: what each state does with the bytes in front of it. */
module EsiStep {
  import opened Wrappers
  import opened Vct
  import opened EsiMarks

  /** The texts that are read through a moving pointer; NoText is the null pointer. */
  datatype Text = NoText | Esi | CommentEnd | CdataEnd

  /** The byte of a text at `i`: past the last one there is the terminator. */
  function At(t: Text, i: nat): char {
    match t
    case NoText => '\0'
    case Esi => if i == 0 then 'e' else if i == 1 then 's' else if i == 2 then 'i' else '\0'
    case CommentEnd => if i <= 1 then '-' else if i == 2 then '>' else '\0'
    case CdataEnd => if i <= 1 then ']' else if i == 2 then '>' else '\0'
  }

  // ---- states and match tables ----

  /** A state is known by its number; the names follow. */
  type State = s: int | 0 <= s <= 22

  const START: State := 0
  const TESTXML: State := 1
  const NOTXML: State := 2
  const NEXTTAG: State := 3
  const NOTMYTAG: State := 4
  const UNTIL: State := 5
  const STARTTAG: State := 6
  const COMMENT: State := 7
  const CDATA: State := 8
  const ESITAG: State := 9
  const ESIREMOVE: State := 10
  const ESIINCLUDE: State := 11
  const ESICOMMENT: State := 12
  const ESIBOGON: State := 13
  const INTAG: State := 14
  const TAGERROR: State := 15
  const ATTR: State := 16
  const SKIPATTR: State := 17
  const ATTRDELIM: State := 18
  const ATTRGETVAL: State := 19
  const ATTRVAL: State := 20
  const MATCHBUF: State := 21
  const MATCH: State := 22

  /** NoTable stands for a null pointer. */
  datatype Table = NoTable | StartTable | EsiTable | IncludeTable

  /** The entry with the null text, which ends every table. */
  function Default(t: Table): State {
    match t
    case NoTable => NOTMYTAG
    case StartTable => NOTMYTAG
    case EsiTable => ESIBOGON
    case IncludeTable => SKIPATTR
  }

  datatype Found = More | Hit(len: nat, state: State) | Miss

  /** One entry of vep_match: a text that is a prefix of the input hits; an input that ends inside the
      text needs more; otherwise the later entries decide. */
  function Try(text: string, st: State, s: string, later: Found): Found {
    if text <= s then Hit(|text|, st) else if s <= text then More else later
  }

  function MatchTable(t: Table, s: string): (r: Found)
    ensures r.Hit? ==> 0 < r.len <= |s|
  {
    match t
    case NoTable => Miss
    case StartTable => Try("!--", COMMENT, s, Try("esi:", ESITAG, s, Try("![CDATA[", CDATA, s, Miss)))
    case EsiTable =>
      Try("include", ESIINCLUDE, s, Try("remove", ESIREMOVE, s, Try("comment", ESICOMMENT, s, Miss)))
    case IncludeTable => Try("src=", ATTRGETVAL, s, Miss)
  }

  // ---- parser state ----

  datatype DoStuff = NoDo | DoInclude | DoRemove | DoComment

  /** Single-bit fields of the parser, and three records kept beside them. `loose`: a tag interrupted the end
      of an ESI comment, and whether its bytes are marked by now depends on where pieces ended. `astray`: marks
      were made that come out otherwise when the document is cut otherwise. `dead`: an assertion failed. */
  datatype Flags = Flags(
    esi_found: bool,
    endtag: bool,
    emptytag: bool,
    canattr: bool,
    remove: bool,
    in_esi_tag: bool,
    loose: bool,
    astray: bool,
    dead: bool)

  /** A text and the place where it is read. */
  datatype Cursor = Cursor(text: Text, p: nat)

  /** Fields that deal with attributes. `attr` tells whether the attribute table of includes is set, and
      `url` is the URL of the request. */
  datatype Attrs = Attrs(
    attr: bool,
    attr_vsb: Option<string>,
    attr_delim: char,
    dostuff: DoStuff,
    include_src: Option<string>,
    url: string)

  /** The control part of the parser. `tag` is empty outside MATCHBUF, and `match_tbl` is NoTable outside
      MATCH and MATCHBUF. */
  datatype Ctl = Ctl(
    state: State,
    f: Flags,
    until: Cursor,
    until_s: State,
    esicmt: Cursor,
    match_tbl: Table,
    tag: string,
    a: Attrs)

  /** One move: the new control state, and what happens to the marks: go `pre` bytes ahead, mark,
      go `post` bytes ahead, append an instruction. */
  datatype Act = Act(ctl: Ctl, pre: nat, mark: Option<Mark>, post: nat, emit: Option<Instr>) {
    function Eaten(): nat { pre + post }
  }

  function Just(c: Ctl): Act { Act(c, 0, None, 0, None) }

  function Eat(c: Ctl, n: nat): Act { Act(c, n, None, 0, None) }

  function Apply(mk: Marks, a: Act): Marks {
    var m1 := Advance(mk, a.pre);
    var m2 := if a.mark.Some? then MarkCommon(m1, a.mark.value) else m1;
    var m3 := Advance(m2, a.post);
    if a.emit.Some? then EmitInstr(m3, a.emit.value) else m3
  }

  // ---- what a tag does at its end ----

  /** Does a '/' follow "http://" before the first NUL? */
  predicate HasPath(src: string) {
    exists i {:trigger src[i]} :: 7 <= i < |src| && src[i] == '/' && '\0' !in src[..i]
  }

  /** vep_do_include asserts that an absolute include has a path. */
  predicate IncludeOK(src: string) {
    |src| > 7 && "http://" <= src ==> HasPath(src)
  }

  function Dead(c: Ctl): Ctl { c.(f := c.f.(dead := true)) }

  /** vep->dostuff(vep, DO_TAG), after the tag was marked as skipped. */
  function DoTag(c: Ctl): (r: (Ctl, Option<Instr>)) {
    match c.a.dostuff
    case NoDo => (Dead(c), None)
    case DoComment => (c, None)
    case DoRemove =>
      (if c.f.emptytag || c.f.remove != c.f.endtag then c else c.(f := c.f.(remove := !c.f.endtag)), None)
    case DoInclude =>
      if c.a.include_src.None? then (c, None)
      else if !IncludeOK(c.a.include_src.value) then (Dead(c), None)
      else (c.(a := c.a.(include_src := None)), Some(Include(c.a.include_src.value, c.a.url)))
  }

  /** vep->dostuff(vep, DO_ATTR), when an attribute value was gathered. */
  function DoAttr(c: Ctl): Ctl {
    if c.a.attr_vsb.None? then c
    else if !c.a.dostuff.DoInclude? then Dead(c)
    else if c.a.include_src.Some? then
      c.(state := TAGERROR, a := c.a.(attr_vsb := None, include_src := None))
    else c.(a := c.a.(include_src := c.a.attr_vsb, attr_vsb := None))
  }

  // ---- loops: bytes a state takes while staying in itself ----

  /** COMMENT starts over with "esi" unless an ESI comment is open. */
  function ArmComment(k: Cursor): Cursor {
    if k.text.NoText? then Cursor(Esi, 0) else k
  }

  /** What NEXTTAG resets on entry. */
  function ResetTag(c: Ctl): Ctl {
    c.(f := c.f.(emptytag := false, endtag := false), a := c.a.(attr := false, dostuff := NoDo))
  }

  /** Does the loop of the current state take byte `b` and stay in the loop? */
  predicate Loops(c: Ctl, b: char) {
    if c.state == TESTXML then IsLws(b)
    else if c.state == NOTXML then true
    else if c.state == NOTMYTAG then b != '>'
    else if c.state == NEXTTAG then b != '<'
    else if c.state == COMMENT then
      var k := ArmComment(c.esicmt);
      b == At(k.text, k.p) && At(k.text, k.p + 1) != '\0'
    else if c.state == INTAG then !c.f.emptytag && (IsLws(b) || b == '/')
    else if c.state == TAGERROR then b != '>'
    else if c.state == SKIPATTR then IsXmlName(b)
    else if c.state == ATTRVAL then
      b != '>' && b != c.a.attr_delim && (c.a.attr_delim != ' ' || !IsSp(b))
    else if c.state == MATCHBUF then b != '>' && MatchTable(c.match_tbl, c.tag + [b]).More?
    else if c.state == UNTIL then
      b != At(c.until.text, c.until.p) || At(c.until.text, c.until.p + 1) != '\0'
    else false
  }

  function LoopNextTag(c: Ctl, b: char): (a: Act)
    ensures a.Eaten() == 1
  {
    var c1 := ResetTag(c);
    var k := c.esicmt;
    if k.text.NoText? then Eat(c1, 1)
    else if b != At(k.text, k.p) then Eat(c1.(esicmt := Cursor(k.text, 0), f := c1.f.(loose := false)), 1)
    else if At(k.text, k.p + 1) == '\0' then
      // the end of the ESI comment is skipped, and with it what was not marked before
      Act(c1.(f := c1.f.(esi_found := true, loose := false, astray := c.f.astray || c.f.loose),
              esicmt := Cursor(NoText, 0)), 1, Some(SKIP), 0, None)
    else
      Act(c1.(esicmt := Cursor(k.text, k.p + 1)), 0,
          if !c.f.remove && k.p == 0 then Some(VERBATIM) else None, 1, None)
  }

  function LoopAct(c: Ctl, b: char): (a: Act)
    ensures a.Eaten() == 1
  {
    if c.state == NEXTTAG then LoopNextTag(c, b)
    else if c.state == COMMENT then
      var k := ArmComment(c.esicmt);
      Eat(c.(esicmt := Cursor(k.text, k.p + 1)), 1)
    else if c.state == INTAG then
      Eat(c.(f := if IsLws(b) then c.f.(canattr := true) else c.f.(emptytag := true, canattr := false)), 1)
    else if c.state == ATTRVAL then
      Eat(if c.a.attr_vsb.Some? then c.(a := c.a.(attr_vsb := Some(c.a.attr_vsb.value + [b]))) else c, 1)
    else if c.state == MATCHBUF then Eat(c.(tag := c.tag + [b]), 1)
    else if c.state == UNTIL then
      Eat(c.(until := c.until.(p := if b != At(c.until.text, c.until.p) then 0 else c.until.p + 1)), 1)
    else Eat(c, 1)
  }

  /** What a loop does when it runs into the end of the piece. */
  function EndAct(c: Ctl): Act {
    var verbatim :=
      || c.state == TESTXML || c.state == NOTXML
      || (!c.f.remove
          && (c.state == NOTMYTAG || (c.state == NEXTTAG && c.esicmt.p == 0) || c.state == UNTIL));
    Act(c, 0, if verbatim then Some(VERBATIM) else None, 0, None)
  }

  // ---- leaving a state ----

  // The states are grouped as VEP_parse has them.
  predicate TextState(st: State) { START <= st <= UNTIL }

  predicate OpenState(st: State) { STARTTAG <= st <= ESIBOGON }

  predicate AttrState(st: State) { ATTR <= st <= ATTRVAL }

  predicate Matching(st: State) { st == MATCH || st == MATCHBUF }

  /** A tag in the middle of the end of an ESI comment does not disarm it. */
  function Loosen(c: Ctl): Ctl { c.(f := c.f.(loose := !c.f.remove && c.esicmt.p > 0)) }

  function ExitText(c: Ctl, b: char, last: bool): (a: Act)
    ensures a.Eaten() <= 1
  {
    if c.state == START then Just(c.(state := TESTXML))
    else if c.state == TESTXML then
      if b == '<' then Act(c.(state := STARTTAG), 0, Some(VERBATIM), 1, None)
      else Act(c.(state := NOTXML), 0, Some(VERBATIM), 0, None)
    else if c.state == NOTMYTAG then
      Act(Loosen(c.(state := NEXTTAG)), 1, if last && !c.f.remove then Some(VERBATIM) else None, 0, None)
    else if c.state == NEXTTAG then
      var c1 := ResetTag(c);
      Act(c1.(state := STARTTAG, f := c1.f.(loose := false)), 0,
          if !c.f.remove then Some(VERBATIM) else None, 1, None)
    else  // UNTIL; NOTXML takes every byte in its loop
      Act(Loosen(c.(until := c.until.(p := c.until.p + 1), state := c.until_s)), 1,
          if last && !c.f.remove then Some(VERBATIM) else None, 0, None)
  }

  function ExitComment(c: Ctl, b: char): (a: Act)
    ensures a.Eaten() <= 1
  {
    var k := ArmComment(c.esicmt);
    if b != At(k.text, k.p) then
      // the start of the comment is marked verbatim even if it is being removed
      Act(c.(esicmt := Cursor(NoText, 0), until := Cursor(CommentEnd, 0), until_s := NEXTTAG,
             state := UNTIL, f := c.f.(astray := c.f.astray || c.f.remove)), 0, Some(VERBATIM), 0, None)
    else
      Act(c.(esicmt := Cursor(CommentEnd, 0), state := NEXTTAG), 1, Some(SKIP), 0, None)
  }

  function ExitOpen(c: Ctl, b: char): (a: Act)
    ensures a.Eaten() <= 1
  {
    if c.state == STARTTAG then
      var c1 := c.(match_tbl := StartTable, state := MATCH);
      if b == '/' then Eat(c1.(f := c.f.(endtag := true)), 1) else Just(c1)
    else if c.state == COMMENT then ExitComment(c, b)
    else if c.state == CDATA then
      Just(c.(until := Cursor(CdataEnd, 0), until_s := NEXTTAG, state := UNTIL))
    else if c.state == ESITAG then
      Act(c.(f := c.f.(in_esi_tag := true, esi_found := true), match_tbl := EsiTable, state := MATCH),
          0, Some(SKIP), 0, None)
    else if c.state == ESIINCLUDE then
      if c.f.remove || c.f.endtag then Just(c.(state := TAGERROR))
      else Just(c.(a := c.a.(dostuff := DoInclude, attr := true), state := INTAG))
    else if c.state == ESIREMOVE then Just(c.(a := c.a.(dostuff := DoRemove), state := INTAG))
    else if c.state == ESICOMMENT then
      if c.f.remove || c.f.endtag then Just(c.(state := TAGERROR))
      else Just(c.(a := c.a.(dostuff := DoComment), state := INTAG))
    else Just(c.(state := TAGERROR))  // ESIBOGON
  }

  function ExitInTag(c: Ctl, b: char): (a: Act)
    ensures a.Eaten() <= 1
  {
    if b == '>' then
      var (c1, emit) := DoTag(c);
      Act(c1.(f := c1.f.(in_esi_tag := false), state := NEXTTAG), 1, Some(SKIP), 0, emit)
    else if !c.f.emptytag && c.f.canattr && IsXmlNameStart(b) then Just(c.(state := ATTR))
    else Just(c.(state := TAGERROR))
  }

  function ExitTagError(c: Ctl): (a: Act)
    ensures a.Eaten() == 1
  {
    Act(c.(f := c.f.(in_esi_tag := false), state := NEXTTAG), 1, Some(SKIP), 0, None)
  }

  function ExitAttr(c: Ctl, b: char): (a: Act)
    ensures a.Eaten() <= 1
  {
    if c.state == ATTR then
      if c.a.attr then Just(c.(match_tbl := IncludeTable, state := MATCH))
      else if c.a.attr_vsb.Some? then Just(Dead(c))
      else Eat(c.(state := SKIPATTR), 1)
    else if c.state == SKIPATTR then
      if b == '=' then Eat(c.(state := ATTRDELIM), 1)
      else if b == '>' || b == '/' || IsSp(b) then Just(c.(state := INTAG))
      else Just(c.(state := TAGERROR))
    else if c.state == ATTRGETVAL then Just(c.(a := c.a.(attr_vsb := Some("")), state := ATTRDELIM))
    else if c.state == ATTRDELIM then
      if b == '"' || b == '\'' then Eat(c.(a := c.a.(attr_delim := b), state := ATTRVAL), 1)
      else if !IsSp(b) then Just(c.(a := c.a.(attr_delim := ' '), state := ATTRVAL))
      else Just(c.(state := TAGERROR))
    else if b == '>' then  // ATTRVAL
      Just(c.(a := c.a.(attr_delim := '\0', attr_vsb := None), state := TAGERROR))
    else Eat(DoAttr(c.(a := c.a.(attr_delim := '\0'), state := INTAG)), 1)
  }

  function ExitMatch(c: Ctl, s: string): (a: Act)
    ensures a.Eaten() <= |s|
  {
    match MatchTable(c.match_tbl, s)
    case Hit(len, st) => Eat(Enter(c, st), len)
    case Miss => Just(Enter(c, Default(c.match_tbl)))
    case More => Eat(c.(tag := s, state := MATCHBUF), |s|)
  }

  function ExitMatchBuf(c: Ctl, b: char): (a: Act)
    ensures a.Eaten() <= 1
  {
    var m := if b == '>' then Miss else MatchTable(c.match_tbl, c.tag + [b]);
    if m.Hit? then Eat(Enter(c, m.state), 1) else Just(Enter(c, Default(c.match_tbl)))
  }

  /** Leaving MATCH or MATCHBUF for the state of the table entry. */
  function Enter(c: Ctl, st: State): Ctl {
    c.(state := st, match_tbl := NoTable, tag := "")
  }

  /** The move out of the current state, at the first byte of `s` its loop does not take. */
  function ExitAct(c: Ctl, s: string): (a: Act)
    requires s != []
    ensures a.Eaten() <= |s|
  {
    var b := s[0];
    if TextState(c.state) then ExitText(c, b, |s| == 1)
    else if OpenState(c.state) then ExitOpen(c, b)
    else if AttrState(c.state) then ExitAttr(c, b)
    else if c.state == INTAG then ExitInTag(c, b)
    else if c.state == TAGERROR then ExitTagError(c)
    else if c.state == MATCH then ExitMatch(c, s)
    else ExitMatchBuf(c, b)
  }

  // ---- how a piece is settled ----

  /** What happens to the bytes not marked yet when a piece ends here. */
  function FateOf(c: Ctl): Fate {
    if c.f.in_esi_tag || c.f.remove then Skipped
    else if c.state == NEXTTAG && c.esicmt.p > 0 && !c.f.loose then Pending
    else if TESTXML <= c.state <= UNTIL then Verb
    else Pending
  }

  /** How the flags go with the state. An ESI tag is open from its keyword to its end, and inside it only
      its own tables are in use. */
  ghost predicate Sane(c: Ctl) {
    && (c.f.in_esi_tag <==>
          ESIREMOVE <= c.state <= ATTRVAL
          || (Matching(c.state) && (c.match_tbl.EsiTable? || c.match_tbl.IncludeTable?)))
    && (Matching(c.state) <==> !c.match_tbl.NoTable?)
    && (c.f.remove ==> c.state >= NEXTTAG)
    && c.esicmt.p <= 2 && !c.esicmt.text.CdataEnd?
    && (c.esicmt.text.NoText? ==> c.esicmt.p == 0)
    && (c.esicmt.text.Esi? ==> c.state == COMMENT)
    && (c.f.loose ==> c.state == NEXTTAG && c.esicmt.p > 0 && !c.f.remove)
    && (c.f.remove || c.f.in_esi_tag || c.f.astray ==> c.f.esi_found)
    && (c.state == UNTIL ==> c.until_s == NEXTTAG)
    && (c.state != ATTRVAL ==> c.a.attr_delim == '\0')
  }
}
