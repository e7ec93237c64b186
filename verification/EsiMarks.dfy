/** Marking storage as verbatim or skip, and the instructions this leaves behind. */
module EsiMarks {

  datatype Mark = VERBATIM | SKIP

  /** `Include` carries the source attribute and the URL of the request it is relative to. */
  datatype Instr =
    | Verbatim(n: nat)
    | Skip(n: nat)
    | Include(src: string, url: string)

  /** The counters of the parser. `run` is how far `p` is ahead of `ver_p`; `cb_x` is the total of the
      default callback. */
  datatype Marks = Marks(
    code: seq<Instr>,
    last_mark: Mark,
    o_wait: nat,
    o_pending: nat,
    o_last: nat,
    cb_x: nat,
    run: nat)

  /** `p` moves ahead of `ver_p`. */
  function Advance(mk: Marks, k: nat): Marks {
    mk.(run := mk.run + k)
  }

  function EmitCommon(code: seq<Instr>, l: int, mark: Mark): seq<Instr> {
    if l <= 0 then code else code + [if mark == SKIP then Skip(l) else Verbatim(l)]
  }

  /** vep_mark_common with the default callback, which only adds up the lengths it is given. */
  function MarkCommon(mk: Marks, mark: Mark): Marks {
    if mk.last_mark == mark && mk.run == 0 && mk.o_pending == 0 then mk
    else
      var change := mk.last_mark != mark && mk.o_wait > 0;
      Marks(
        if change then EmitCommon(mk.code, mk.cb_x - mk.o_last, mk.last_mark) else mk.code,
        mark,
        (if change then 0 else mk.o_wait) + mk.o_pending + mk.run,
        0,
        if change then mk.cb_x else mk.o_last,
        mk.cb_x + mk.o_pending + mk.run,
        0)
  }

  /** vep_mark_pending. */
  function MarkPending(mk: Marks): Marks {
    mk.(o_pending := mk.o_pending + mk.run, run := 0)
  }

  function EmitInstr(mk: Marks, i: Instr): Marks {
    mk.(code := mk.code + [i])
  }

  /** What is emitted but for the bytes still gathered, pending or running is exactly what the callback
      saw, up to the last change of mode. */
  ghost predicate Conserved(mk: Marks) {
    && mk.cb_x == mk.o_last + mk.o_wait
    && Total(mk.code) == mk.o_last
  }

  /** The storage bytes that a list of instructions accounts for. */
  function Total(code: seq<Instr>): nat {
    if code == [] then 0
    else
      Total(code[..|code| - 1]) +
      match code[|code| - 1]
      case Verbatim(n) => n
      case Skip(n) => n
      case Include(_, _) => 0
  }

  /** All storage bytes taken in so far. */
  function Taken(mk: Marks): nat {
    mk.cb_x + mk.o_pending + mk.run
  }

  /** Marking loses and invents no byte. */
  lemma MarkCommonConserves(mk: Marks, mark: Mark)
    requires Conserved(mk)
    ensures var mk' := MarkCommon(mk, mark);
      Conserved(mk') && Taken(mk') == Taken(mk) && mk'.run == 0 && mk'.o_pending == 0
      && mk'.last_mark == mark
  {
    var code' := EmitCommon(mk.code, mk.cb_x - mk.o_last, mk.last_mark);
    assert code' != mk.code ==> code'[..|code'| - 1] == mk.code;
  }

  lemma EmitConserves(mk: Marks, i: Instr)
    requires Conserved(mk) && i.Include?
    ensures Conserved(EmitInstr(mk, i)) && Taken(EmitInstr(mk, i)) == Taken(mk)
  {
    assert (mk.code + [i])[..|mk.code|] == mk.code;
  }

  // ---- why early marks do not matter ----

  /** How storage is marked when a piece ends. */
  datatype Fate = Verb | Skipped | Pending

  function MarkOf(f: Fate): Mark {
    if f == Skipped then SKIP else VERBATIM
  }

  /** The marks as they would stand if the piece ended here. */
  function Settle(f: Fate, mk: Marks): Marks {
    if f == Pending then MarkPending(mk) else MarkCommon(mk, MarkOf(f))
  }

  /** Settling is absorbed by any later mark it is compatible with. */
  lemma SettleThenMark(f: Fate, mk: Marks, k: nat, mark: Mark)
    requires f == Pending || MarkOf(f) == mark
    ensures MarkCommon(Advance(Settle(f, mk), k), mark) == MarkCommon(Advance(mk, k), mark)
  {
  }

  lemma SettleThenSettle(f: Fate, f': Fate, mk: Marks, k: nat)
    requires f == Pending || f' == f
    ensures Settle(f', Advance(Settle(f, mk), k)) == Settle(f', Advance(mk, k))
  {
  }

  /** Two markings with the same settled form. */
  ghost predicate Alike(f: Fate, a: Marks, b: Marks) {
    Settle(f, a) == Settle(f, b)
  }

  lemma AlikeAdvance(f: Fate, f': Fate, a: Marks, b: Marks, k: nat)
    requires Alike(f, a, b) && (f == Pending || f' == f)
    ensures Alike(f', Advance(a, k), Advance(b, k))
  {
    SettleThenSettle(f, f', a, k);
    SettleThenSettle(f, f', b, k);
  }

  lemma AlikeMark(f: Fate, a: Marks, b: Marks, k: nat, mark: Mark)
    requires Alike(f, a, b) && (f == Pending || MarkOf(f) == mark)
    ensures MarkCommon(Advance(a, k), mark) == MarkCommon(Advance(b, k), mark)
  {
    SettleThenMark(f, a, k, mark);
    SettleThenMark(f, b, k, mark);
  }

  /** Marking as the piece would be settled anyway changes nothing. */
  lemma MarkIsAlike(f: Fate, mk: Marks)
    requires f != Pending
    ensures Alike(f, MarkCommon(mk, MarkOf(f)), mk)
  {
  }
}
