/** The shared-memory log: writers that reserve room under a lock and fill and publish it without one, and
    a reader that follows the records. */
module ShmLog {
  import opened Seqs

  type Word = w: nat | w < 0x1_0000_0000

  const ENDMARKER: Word := 0xff454545
  const WRAPMARKER: Word := 0xff575757

  function Words(len: nat): nat { (len + 3) / 4 }

  /** vsl_w0. */
  function Header(tag: nat, len: nat): Word
    requires tag < 256 && len < 0x10000
  {
    tag * 0x100_0000 + len
  }

  function Len(w: Word): nat { w % 0x10000 }

  function Next(r: nat, w: Word): nat { r + 2 + Words(Len(w)) }

  /** A record: header, identifier and content. Tag 255 is reserved. */
  ghost predicate IsRecord(rec: seq<Word>) {
    exists tag: nat, len: nat :: tag < 255 && len < 0x10000 && rec != []
      && rec[0] == Header(tag, len) && |rec| == 2 + Words(len)
  }

  /** No header can be taken for a marker, and it tells where the next record starts. */
  lemma HeaderIsNoMarker(rec: seq<Word>, r: nat)
    requires IsRecord(rec)
    ensures rec[0] != ENDMARKER && rec[0] != WRAPMARKER && Next(r, rec[0]) == r + |rec| && |rec| >= 2
  {
    var tag: nat, len: nat :| tag < 255 && len < 0x10000 && rec[0] == Header(tag, len) && |rec| == 2 + Words(len);
    assert rec[0] % 0x10000 == len;
  }

  /** Room for one record or a batch of them. `done` are the words written so far, other than the first. */
  datatype Slot = Slot(p: nat, recs: seq<seq<Word>>, done: set<nat>, published: bool)

  function End(s: Slot): nat { s.p + |Flat(s.recs)| }

  ghost predicate Sound(s: Slot) {
    && s.recs != [] && (forall j :: 0 <= j < |s.recs| ==> IsRecord(s.recs[j])) && |Flat(s.recs)| > 0
    && (forall k :: k in s.done ==> 0 < k < |Flat(s.recs)|)
    && (s.published ==> forall k :: 0 < k < |Flat(s.recs)| ==> k in s.done)
  }

  /** What memory must hold of a slot beyond address `p`: the words written so far, and either its header
      or an end marker. */
  ghost predicate Intact(mem: seq<Word>, s: Slot, p: nat) {
    && s.p < End(s) <= |mem|
    && (forall k :: k in s.done && k < |Flat(s.recs)| && s.p + k > p ==> mem[s.p + k] == Flat(s.recs)[k])
    && (s.p > p ==> mem[s.p] == if s.published then Flat(s.recs)[0] else ENDMARKER)
  }

  /** The log. `cur` are the slots of this lap, `prev` those of the lap before, which ended at `brk`;
      `stale` are slots of earlier laps still being written. `wrapping` is the time between the new front
      and the wrap marker at the old end. */
  datatype Log = Log(mem: seq<Word>, ptr: nat, cur: seq<Slot>, lap: nat, prev: seq<Slot>, brk: nat,
                     stale: seq<Slot>, wrapping: bool)

  function Init(mem: seq<Word>): Log
    requires |mem| > 1
  {
    Log(mem[1 := ENDMARKER], 1, [], 0, [], 1, [], false)
  }

  /** What a writer is called with: tag, identifier, length of the content in bytes, and its words. */
  datatype Entry = Entry(tag: nat, id: Word, len: nat, data: seq<Word>)

  /** What VSL_TAG, VSL_LEN, VSL_ID and VSL_DATA make of a record. */
  predicate Decodes(rec: seq<Word>, e: Entry) {
    && |rec| >= 2
    && rec[0] / 0x100_0000 == e.tag && Len(rec[0]) == e.len && rec[1] == e.id
    && |rec| == 2 + Words(Len(rec[0])) && rec[2..] == e.data
  }

  /** Records for entries, one for each. */
  predicate AllDecode(recs: seq<seq<Word>>, es: seq<Entry>) {
    |recs| == |es| && forall j :: 0 <= j < |recs| ==> Decodes(recs[j], es[j])
  }

  /** The words of a record are as many as its bytes need. */
  lemma ContentFits(len: nat)
    ensures len <= 4 * Words(len) < len + 4
  {
  }

  // ---- the steps ----

  datatype Place = Cur(i: nat) | Prev(i: nat) | Stale(i: nat)

  datatype Move =
    | Take(recs: seq<seq<Word>>)
    | WrapFront
    | WrapEnd(serial: Word)
    | Fill(at: Place, k: nat)
    | Publish(at: Place)

  function Slots(l: Log, at: Place): seq<Slot> {
    if at.Cur? then l.cur else if at.Prev? then l.prev else l.stale
  }

  function SetSlot(l: Log, at: Place, s: Slot): Log
    requires at.i < |Slots(l, at)|
  {
    if at.Cur? then l.(cur := l.cur[at.i := s])
    else if at.Prev? then l.(prev := l.prev[at.i := s])
    else l.(stale := l.stale[at.i := s])
  }

  /** Slots of earlier laps not published yet lie beyond `p`. */
  ghost predicate EarlierPast(l: Log, p: nat) {
    && (forall i :: 0 <= i < |l.prev| && !l.prev[i].published ==> l.prev[i].p > p)
    && (forall i :: 0 <= i < |l.stale| && !l.stale[i].published ==> l.stale[i].p > p)
  }

  /** What can happen, given that every writer publishes before its words are reused. */
  ghost predicate Enabled(l: Log, m: Move) {
    match m
    case Take(recs) =>
      && !l.wrapping && Sound(Slot(l.ptr, recs, {}, false))
      && l.ptr + |Flat(recs)| < |l.mem| && EarlierPast(l, l.ptr + |Flat(recs)|)
    case WrapFront =>
      !l.wrapping && l.ptr > 1 && (forall i :: 0 <= i < |l.cur| && l.cur[i].p == 1 ==> l.cur[i].published)
    case WrapEnd(_) => l.wrapping
    case Fill(at, k) =>
      && at.i < |Slots(l, at)| && !Slots(l, at)[at.i].published
      && 0 < k < |Flat(Slots(l, at)[at.i].recs)|
    case Publish(at) =>
      && at.i < |Slots(l, at)| && !Slots(l, at)[at.i].published
      && forall k :: 0 < k < |Flat(Slots(l, at)[at.i].recs)| ==> k in Slots(l, at)[at.i].done
  }

  /** Unpublished slots among those given. */
  function Pending(ss: seq<Slot>, p: nat): (r: seq<Slot>)
    ensures forall s :: s in r <==> s in ss && !s.published && s.p > p
  {
    if ss == [] then []
    else
      var r := Pending(ss[..|ss| - 1], p);
      var s := ss[|ss| - 1];
      assert ss == ss[..|ss| - 1] + [s];
      if !s.published && s.p > p then r + [s] else r
  }

  // ---- what every step keeps ----

  /** Slots one after the other from `from` up to `to`. */
  ghost predicate Chain(ss: seq<Slot>, from: nat, to: nat) {
    && (forall i :: 0 <= i < |ss| ==> Sound(ss[i]))
    && (forall i :: 0 <= i < |ss| - 1 ==> End(ss[i]) == ss[i + 1].p)
    && (if ss == [] then from == to else ss[0].p == from && End(ss[|ss| - 1]) == to)
  }

  ghost predicate StaleOK(l: Log, s: Slot) {
    s.p > l.ptr && s.p > l.brk && Sound(s) && End(s) <= |l.mem|
  }

  ghost predicate Inv(l: Log) {
    && 1 <= l.ptr < |l.mem| && 1 <= l.brk < |l.mem|
    && Chain(l.cur, 1, l.ptr) && Chain(l.prev, 1, l.brk)
    && (forall i :: 0 <= i < |l.cur| ==> Intact(l.mem, l.cur[i], 0))
    && (forall i :: 0 <= i < |l.prev| ==> Intact(l.mem, l.prev[i], l.ptr))
    && (forall i :: 0 <= i < |l.prev| && l.prev[i].p <= l.ptr ==> l.prev[i].published)
    && (forall i :: 0 <= i < |l.stale| ==> StaleOK(l, l.stale[i]))
    && l.mem[l.ptr] == ENDMARKER
    && (l.brk > l.ptr ==> l.mem[l.brk] == if l.wrapping then ENDMARKER else WRAPMARKER)
    && (l.wrapping ==> l.ptr == 1 < l.brk && l.cur == [])
  }

  /** In a chain, addresses grow. */
  lemma {:induction false} ChainOrder(ss: seq<Slot>, from: nat, to: nat, i: nat, j: nat)
    requires Chain(ss, from, to) && i < j < |ss|
    ensures End(ss[i]) <= ss[j].p && ss[i].p < ss[j].p
    decreases j
  {
    if i < j - 1 {
      ChainOrder(ss, from, to, i, j - 1);
    }
  }

  lemma {:induction false} ChainBounds(ss: seq<Slot>, from: nat, to: nat, i: nat)
    requires Chain(ss, from, to) && i < |ss|
    ensures from <= ss[i].p < End(ss[i]) <= to
  {
    if i > 0 { ChainOrder(ss, from, to, 0, i); }
    if i < |ss| - 1 { ChainOrder(ss, from, to, i, |ss| - 1); }
  }

  /** Every slot lies inside the buffer. */
  lemma Room(l: Log, at: Place)
    requires Inv(l) && at.i < |Slots(l, at)|
    ensures var s := Slots(l, at)[at.i]; Sound(s) && s.p < End(s) <= |l.mem|
  {
    if at.Cur? { ChainBounds(l.cur, 1, l.ptr, at.i); }
    else if at.Prev? { ChainBounds(l.prev, 1, l.brk, at.i); }
    else { assert StaleOK(l, l.stale[at.i]); }
  }

  ghost function Step(l: Log, m: Move): Log
    requires Inv(l) && Enabled(l, m)
  {
    match m
    case Take(recs) =>
      var n := l.ptr + |Flat(recs)|;
      l.(mem := l.mem[n := ENDMARKER], ptr := n, cur := l.cur + [Slot(l.ptr, recs, {}, false)],
         stale := Pending(l.stale, n))
    case WrapFront =>
      Log(l.mem[1 := ENDMARKER], 1, [], l.lap + 1, l.cur, l.ptr,
          Pending(l.stale, l.ptr) + Pending(l.prev, l.ptr), true)
    case WrapEnd(serial) => l.(mem := l.mem[0 := serial][l.brk := WRAPMARKER], wrapping := false)
    case Fill(at, k) =>
      Room(l, at);
      var s := Slots(l, at)[at.i];
      SetSlot(l.(mem := l.mem[s.p + k := Flat(s.recs)[k]]), at, s.(done := s.done + {k}))
    case Publish(at) =>
      Room(l, at);
      var s := Slots(l, at)[at.i];
      SetSlot(l.(mem := l.mem[s.p := Flat(s.recs)[0]]), at, s.(published := true))
  }

  // ---- every move keeps the invariant ----

  lemma WriteOutside(mem: seq<Word>, a: nat, w: Word, s: Slot, p: nat, p': nat)
    requires Intact(mem, s, p) && a < |mem| && p <= p' && (a < s.p || a >= End(s) || a <= p')
    ensures Intact(mem[a := w], s, p')
  {
  }

  lemma ChainSnoc(ss: seq<Slot>, from: nat, to: nat, s: Slot)
    requires Chain(ss, from, to) && s.p == to && Sound(s)
    ensures Chain(ss + [s], from, End(s))
  {
  }

  lemma TakeKeeps(l: Log, recs: seq<seq<Word>>)
    requires Inv(l) && Enabled(l, Take(recs))
    ensures Inv(Step(l, Take(recs)))
  {
    hide Sound, Flat, Intact, Chain, StaleOK;
    var room := Slot(l.ptr, recs, {}, false);
    NotEmpty(room);
    ChainSnoc(l.cur, 1, l.ptr, room);
    NewSlot(l.mem, room);
    TakeCur(l, End(room));
    TakePrev(l, End(room));
    TakeStale(l, Step(l, Take(recs)));
  }

  lemma TakeCur(l: Log, n: nat)
    requires Inv(l) && l.ptr < n < |l.mem|
    ensures forall i :: 0 <= i < |l.cur| ==> Intact(l.mem[n := ENDMARKER], l.cur[i], 0)
  {
    hide Sound, Flat, Intact, Chain;
    forall i | 0 <= i < |l.cur| ensures Intact(l.mem[n := ENDMARKER], l.cur[i], 0) {
      ChainBounds(l.cur, 1, l.ptr, i);
      WriteOutside(l.mem, n, ENDMARKER, l.cur[i], 0, 0);
    }
  }

  lemma TakePrev(l: Log, n: nat)
    requires Inv(l) && l.ptr < n < |l.mem|
    ensures forall i :: 0 <= i < |l.prev| ==> Intact(l.mem[n := ENDMARKER], l.prev[i], n)
  {
    hide Sound, Flat, Intact, Chain;
    forall i | 0 <= i < |l.prev| ensures Intact(l.mem[n := ENDMARKER], l.prev[i], n) {
      WriteOutside(l.mem, n, ENDMARKER, l.prev[i], l.ptr, n);
    }
  }

  lemma TakeStale(l: Log, l': Log)
    requires Inv(l) && l'.ptr >= l.ptr && l'.stale == Pending(l.stale, l'.ptr)
    requires l'.brk == l.brk && |l'.mem| == |l.mem|
    ensures forall i :: 0 <= i < |l'.stale| ==> StaleOK(l', l'.stale[i])
  {
    hide Sound, Flat, Intact, Chain;
    forall i | 0 <= i < |l'.stale| ensures StaleOK(l', l'.stale[i]) {
      assert l'.stale[i] in l'.stale;
      var j :| 0 <= j < |l.stale| && l.stale[j] == l'.stale[i];
      assert StaleOK(l, l.stale[j]);
    }
  }

  lemma NewSlot(mem: seq<Word>, s: Slot)
    requires s.done == {} && !s.published && |Flat(s.recs)| > 0 && End(s) < |mem| && mem[s.p] == ENDMARKER
    ensures Intact(mem[End(s) := ENDMARKER], s, 0)
  {
  }

  lemma WrapFrontKeeps(l: Log)
    requires Inv(l) && Enabled(l, WrapFront)
    ensures Inv(Step(l, WrapFront))
  {
    var l' := Step(l, WrapFront);
    forall i | 0 <= i < |l'.prev| ensures Intact(l'.mem, l'.prev[i], 1) {
      WriteOutside(l.mem, 1, ENDMARKER, l.cur[i], 0, 1);
    }
    forall i | 0 <= i < |l'.prev| && l'.prev[i].p <= 1 ensures l'.prev[i].published {
      ChainBounds(l.cur, 1, l.ptr, i);
    }
    forall i | 0 <= i < |l'.stale|
      ensures StaleOK(l', l'.stale[i]) {
      PendingRoom(l, l'.stale[i]);
    }
  }

  lemma PendingRoom(l: Log, s: Slot)
    requires Inv(l) && (s in l.stale || s in l.prev)
    ensures Sound(s) && End(s) <= |l.mem|
  {
    if s in l.stale {
      var i :| 0 <= i < |l.stale| && l.stale[i] == s;
      assert StaleOK(l, l.stale[i]);
    } else {
      var i :| 0 <= i < |l.prev| && l.prev[i] == s;
      ChainBounds(l.prev, 1, l.brk, i);
    }
  }

  lemma WrapEndKeeps(l: Log, serial: Word)
    requires Inv(l) && Enabled(l, WrapEnd(serial))
    ensures Inv(Step(l, WrapEnd(serial)))
  {
    var l' := Step(l, WrapEnd(serial));
    forall i | 0 <= i < |l'.prev| ensures Intact(l'.mem, l'.prev[i], l'.ptr) {
      ChainBounds(l.prev, 1, l.brk, i);
      WriteOutside(l.mem, 0, serial, l.prev[i], l.ptr, l.ptr);
      WriteOutside(l.mem[0 := serial], l.brk, WRAPMARKER, l.prev[i], l.ptr, l.ptr);
    }
  }

  /** A slot that is written on keeps its place and size. */
  lemma ChainUpdate(ss: seq<Slot>, from: nat, to: nat, i: nat, s: Slot)
    requires Chain(ss, from, to) && i < |ss| && s.p == ss[i].p && s.recs == ss[i].recs && Sound(s)
    ensures Chain(ss[i := s], from, to)
  {
  }

  /** Where a write into slot `i` of a chain leaves the other slots alone. */
  lemma ChainWrite(mem: seq<Word>, ss: seq<Slot>, from: nat, to: nat, i: nat, a: nat, w: Word, j: nat,
                   p: nat)
    requires Chain(ss, from, to) && i < |ss| && ss[i].p <= a < End(ss[i]) && to <= |mem|
    requires j < |ss| && j != i && Intact(mem, ss[j], p)
    ensures a < |mem| && Intact(mem[a := w], ss[j], p)
  {
    if j < i { ChainOrder(ss, from, to, j, i); } else { ChainOrder(ss, from, to, i, j); }
    ChainBounds(ss, from, to, i);
    WriteOutside(mem, a, w, ss[j], p, p);
  }

  /** One word of a slot is written, its header or another. */
  ghost predicate Written(mem: seq<Word>, s: Slot, a: nat, w: Word, s': Slot) {
    && s.p <= a < End(s) <= |mem| && !s.published
    && s'.p == s.p && s'.recs == s.recs && Sound(s')
    && (forall p: nat :: p < s.p && Intact(mem, s, p) ==> Intact(mem[a := w], s', p))
  }

  lemma CurWritten(l: Log, i: nat, a: nat, w: Word, s': Slot)
    requires Inv(l) && i < |l.cur| && Written(l.mem, l.cur[i], a, w, s')
    ensures Inv(l.(mem := l.mem[a := w], cur := l.cur[i := s']))
  {
    ChainUpdate(l.cur, 1, l.ptr, i, s');
    ChainBounds(l.cur, 1, l.ptr, i);
    hide Sound, Chain, Intact, Flat;
    var mem := l.mem[a := w];
    forall j | 0 <= j < |l.cur| && j != i ensures Intact(mem, l.cur[j], 0) {
      ChainWrite(l.mem, l.cur, 1, l.ptr, i, a, w, j, 0);
    }
    forall j | 0 <= j < |l.prev| ensures Intact(mem, l.prev[j], l.ptr) {
      WriteOutside(l.mem, a, w, l.prev[j], l.ptr, l.ptr);
    }
    SameStale(l, l.(mem := mem, cur := l.cur[i := s']));
  }

  lemma SameStale(l: Log, l': Log)
    requires l'.stale == l.stale && l'.ptr == l.ptr && l'.brk == l.brk && |l'.mem| == |l.mem|
    requires forall i :: 0 <= i < |l.stale| ==> StaleOK(l, l.stale[i])
    ensures forall i :: 0 <= i < |l'.stale| ==> StaleOK(l', l'.stale[i])
  {
    forall i | 0 <= i < |l'.stale| ensures StaleOK(l', l'.stale[i]) { assert StaleOK(l, l.stale[i]); }
  }

  lemma PrevWritten(l: Log, i: nat, a: nat, w: Word, s': Slot)
    requires Inv(l) && i < |l.prev| && Written(l.mem, l.prev[i], a, w, s')
    ensures Inv(l.(mem := l.mem[a := w], prev := l.prev[i := s']))
  {
    ChainUpdate(l.prev, 1, l.brk, i, s');
    ChainBounds(l.prev, 1, l.brk, i);
    assert l.prev[i].p > l.ptr;
    hide Sound, Intact, Flat, Chain;
    var mem := l.mem[a := w];
    forall j | 0 <= j < |l.prev| && j != i ensures Intact(mem, l.prev[j], l.ptr) {
      ChainWrite(l.mem, l.prev, 1, l.brk, i, a, w, j, l.ptr);
    }
    forall j | 0 <= j < |l.cur| ensures Intact(mem, l.cur[j], 0) {
      ChainBounds(l.cur, 1, l.ptr, j);
      WriteOutside(l.mem, a, w, l.cur[j], 0, 0);
    }
    SameStale(l, l.(mem := mem, prev := l.prev[i := s']));
  }

  lemma StaleWritten(l: Log, i: nat, a: nat, w: Word, s': Slot)
    requires Inv(l) && i < |l.stale| && Written(l.mem, l.stale[i], a, w, s')
    ensures Inv(l.(mem := l.mem[a := w], stale := l.stale[i := s']))
  {
    hide Sound, Intact, Flat, Chain;
    StaleUpdate(l, i, a, w, s');
    WriteBeyond(l, a, w);
  }

  /** A stale slot that is written on stays beyond what was handed out since. */
  lemma StaleUpdate(l: Log, i: nat, a: nat, w: Word, s': Slot)
    requires Inv(l) && i < |l.stale| && Written(l.mem, l.stale[i], a, w, s')
    ensures l.ptr < a < |l.mem| && l.brk < a
    ensures var l' := l.(mem := l.mem[a := w], stale := l.stale[i := s']);
      forall j :: 0 <= j < |l'.stale| ==> StaleOK(l', l'.stale[j])
  {
    assert StaleOK(l, l.stale[i]);
    hide Inv, Sound, Intact, Flat, Chain;
    var l' := l.(mem := l.mem[a := w], stale := l.stale[i := s']);
    forall j | 0 <= j < |l'.stale| ensures StaleOK(l', l'.stale[j]) {
      if j != i { assert StaleOK(l, l.stale[j]); }
    }
  }

  /** A write beyond both laps leaves their slots alone. */
  lemma WriteBeyond(l: Log, a: nat, w: Word)
    requires Inv(l) && l.ptr < a < |l.mem| && l.brk < a
    ensures forall j :: 0 <= j < |l.prev| ==> Intact(l.mem[a := w], l.prev[j], l.ptr)
    ensures forall j :: 0 <= j < |l.cur| ==> Intact(l.mem[a := w], l.cur[j], 0)
  {
    hide Sound, Intact, Flat, Chain;
    forall j | 0 <= j < |l.prev| ensures Intact(l.mem[a := w], l.prev[j], l.ptr) {
      ChainBounds(l.prev, 1, l.brk, j);
      WriteOutside(l.mem, a, w, l.prev[j], l.ptr, l.ptr);
    }
    forall j | 0 <= j < |l.cur| ensures Intact(l.mem[a := w], l.cur[j], 0) {
      ChainBounds(l.cur, 1, l.ptr, j);
      WriteOutside(l.mem, a, w, l.cur[j], 0, 0);
    }
  }

  lemma WriteKeeps(l: Log, at: Place, a: nat, w: Word, s': Slot)
    requires Inv(l) && at.i < |Slots(l, at)| && Written(l.mem, Slots(l, at)[at.i], a, w, s')
    ensures a < |l.mem| && Inv(SetSlot(l.(mem := l.mem[a := w]), at, s'))
  {
    hide Inv, Intact, Sound;
    if at.Cur? { CurWritten(l, at.i, a, w, s'); }
    else if at.Prev? { PrevWritten(l, at.i, a, w, s'); }
    else { StaleWritten(l, at.i, a, w, s'); }
  }

  lemma StepKeepsInv(l: Log, m: Move)
    requires Inv(l) && Enabled(l, m)
    ensures Inv(Step(l, m))
  {
    hide Inv;
    match m
    case Take(recs) => TakeKeeps(l, recs);
    case WrapFront => WrapFrontKeeps(l);
    case WrapEnd(serial) => WrapEndKeeps(l, serial);
    case Fill(at, k) => FillKeeps(l, at, k);
    case Publish(at) => PublishKeeps(l, at);
  }

  lemma FillWritten(mem: seq<Word>, s: Slot, k: nat)
    requires 0 < k < |Flat(s.recs)| && End(s) <= |mem| && Sound(s) && !s.published
    ensures Written(mem, s, s.p + k, Flat(s.recs)[k], s.(done := s.done + {k}))
  {
    hide IsRecord, Flat;
  }

  lemma PublishWritten(mem: seq<Word>, s: Slot)
    requires 0 < |Flat(s.recs)| && End(s) <= |mem| && Sound(s) && !s.published
    requires forall k :: 0 < k < |Flat(s.recs)| ==> k in s.done
    ensures Written(mem, s, s.p, Flat(s.recs)[0], s.(published := true))
  {
    hide IsRecord, Flat;
  }

  lemma FillKeeps(l: Log, at: Place, k: nat)
    requires Inv(l) && Enabled(l, Fill(at, k))
    ensures Inv(Step(l, Fill(at, k)))
  {
    hide Inv, Flat, Intact, Sound, Written;
    Room(l, at);
    var s := Slots(l, at)[at.i];
    FillWritten(l.mem, s, k);
    WriteKeeps(l, at, s.p + k, Flat(s.recs)[k], s.(done := s.done + {k}));
  }

  lemma PublishKeeps(l: Log, at: Place)
    requires Inv(l) && Enabled(l, Publish(at))
    ensures Inv(Step(l, Publish(at)))
  {
    hide Inv, Flat, Intact, Sound, Written;
    Room(l, at);
    var s := Slots(l, at)[at.i];
    NotEmpty(s);
    PublishWritten(l.mem, s);
    WriteKeeps(l, at, s.p, Flat(s.recs)[0], s.(published := true));
  }

  lemma NotEmpty(s: Slot)
    requires Sound(s)
    ensures |Flat(s.recs)| > 0
  {
  }
}
