/** A reader of the shared memory log beside its writers. */
module ShmLogReader {
  import opened Seqs
  import opened ShmLog

  /** A reader stands at address `r` in the records of lap `lap`. */
  datatype Reader = Reader(lap: nat, r: nat)

  /** Where a record of a slot starts. */
  function Start(s: Slot, j: nat): nat
    requires j <= |s.recs|
  {
    s.p + |Flat(s.recs[..j])|
  }

  /** The start of a slot, or of a later record of a published one, or the end of all. */
  ghost predicate Boundary(ss: seq<Slot>, to: nat, r: nat) {
    || r == to
    || (exists i, j :: 0 <= i < |ss| && 0 <= j < |ss[i].recs| && (j > 0 ==> ss[i].published) && r == Start(ss[i], j))
  }

  /** A reader of this lap, or one of the lap before that the writers have not overtaken, stands at a
      boundary. */
  ghost predicate OnTrack(l: Log, rd: Reader) {
    && (rd.lap == l.lap ==> Boundary(l.cur, l.ptr, rd.r))
    && (rd.lap + 1 == l.lap && rd.r > l.ptr ==> Boundary(l.prev, l.brk, rd.r))
    && rd.lap <= l.lap
  }

  predicate Overtaken(l: Log, rd: Reader) {
    !(rd.lap == l.lap || (rd.lap + 1 == l.lap && rd.r > l.ptr))
  }

  /** Some published slot has the record there. */
  ghost predicate Holds(ss: seq<Slot>, rec: seq<Word>, r: nat) {
    exists i, j ::
      0 <= i < |ss| && ss[i].published && 0 <= j < |ss[i].recs| && ss[i].recs[j] == rec && r == Start(ss[i], j)
  }

  /** The record a reader meets: whole, and in a published slot of its lap. */
  ghost predicate Meets(l: Log, rd: Reader, rec: seq<Word>) {
    && IsRecord(rec) && |rec| > 0 && rd.r + |rec| <= |l.mem| && l.mem[rd.r..rd.r + |rec|] == rec
    && Holds(if rd.lap == l.lap then l.cur else l.prev, rec, rd.r)
  }

  lemma FlatParts(recs: seq<seq<Word>>, j: nat)
    requires j < |recs|
    ensures Flat(recs[..j + 1]) == Flat(recs[..j]) + recs[j]
    ensures |Flat(recs[..j + 1])| <= |Flat(recs)|
    ensures Flat(recs)[|Flat(recs[..j])|..|Flat(recs[..j + 1])|] == recs[j]
  {
    if j == 0 {
      var one := recs[..1];
      assert one[0] == recs[0] && |one[1..]| == 0 && |recs[..0]| == 0;
    } else {
      FlatParts(recs[1..], j - 1);
      assert recs[..j][1..] == recs[1..][..j - 1] && recs[..j + 1][1..] == recs[1..][..j];
      var a, n, m := recs[0], |Flat(recs[1..][..j - 1])|, |Flat(recs[1..][..j])|;
      assert Flat(recs)[|a| + n..|a| + m] == Flat(recs[1..])[n..m];
    }
  }

  /** At a boundary of a chain a reader finds a marker or a whole published record, and another boundary
      after it. */
  lemma AtBoundary(mem: seq<Word>, ss: seq<Slot>, from: nat, to: nat, i: nat, j: nat, p: nat)
    requires Chain(ss, from, to) && i < |ss| && j < |ss[i].recs| && (j > 0 ==> ss[i].published)
    requires Intact(mem, ss[i], p) && Start(ss[i], j) > p
    ensures var r := Start(ss[i], j); r < |mem| && r < to
    ensures !ss[i].published ==> mem[Start(ss[i], j)] == ENDMARKER
    ensures ss[i].published ==>
      var rec, r := ss[i].recs[j], Start(ss[i], j);
      && IsRecord(rec) && r + |rec| <= |mem| && mem[r..r + |rec|] == rec
      && Boundary(ss, to, r + |rec|)
  {
    var s, r := ss[i], Start(ss[i], j);
    ChainBounds(ss, from, to, i);
    FlatParts(s.recs, j);
    if s.published {
      var rec, n := s.recs[j], |Flat(s.recs[..j])|;
      assert IsRecord(rec);
      forall k | 0 <= k < |rec| ensures mem[r + k] == rec[k] {
        assert Flat(s.recs)[n + k] == Flat(s.recs)[n..n + |rec|][k];
      }
      assert mem[r..r + |rec|] == rec;
      NextBoundary(ss, from, to, i, j);
    }
  }

  lemma NextBoundary(ss: seq<Slot>, from: nat, to: nat, i: nat, j: nat)
    requires Chain(ss, from, to) && i < |ss| && j < |ss[i].recs| && ss[i].published
    ensures Boundary(ss, to, Start(ss[i], j) + |ss[i].recs[j]|)
  {
    var s := ss[i];
    FlatParts(s.recs, j);
    if j + 1 < |s.recs| {
      assert Start(s, j + 1) == Start(s, j) + |s.recs[j]|;
    } else {
      assert s.recs[..j + 1] == s.recs;
      if i + 1 < |ss| {
        assert ss[i + 1].recs[..0] == [];
        assert Start(ss[i + 1], 0) == End(s);
        assert Sound(ss[i + 1]);
      }
    }
  }

  /** Whatever the writers have done, a reader on track that was not overtaken finds, inside the buffer, an
      end marker, a wrap marker, or a whole record of a published slot of its lap; and following VSL_NEXT
      from there it stays on track. */
  lemma ReaderMeetsWholeRecords(l: Log, rd: Reader) returns (rec: seq<Word>)
    requires Inv(l) && OnTrack(l, rd) && !Overtaken(l, rd)
    ensures rd.r < |l.mem|
    ensures l.mem[rd.r] != ENDMARKER && l.mem[rd.r] != WRAPMARKER ==>
      && Meets(l, rd, rec) && Next(rd.r, l.mem[rd.r]) == rd.r + |rec|
      && OnTrack(l, rd.(r := Next(rd.r, l.mem[rd.r]))) && !Overtaken(l, rd.(r := Next(rd.r, l.mem[rd.r])))
  {
    rec := [];
    hide Intact, Chain, Sound, Flat;
    var cur := rd.lap == l.lap;
    var ss, to := if cur then l.cur else l.prev, if cur then l.ptr else l.brk;
    if rd.r != to {
      var i, j :| 0 <= i < |ss| && 0 <= j < |ss[i].recs| && (j > 0 ==> ss[i].published) && rd.r == Start(ss[i], j);
      if cur { ChainBounds(ss, 1, to, i); }
      AtBoundary(l.mem, ss, 1, to, i, j, if cur then 0 else l.ptr);
      if ss[i].published {
        rec := ss[i].recs[j];
        HeaderIsNoMarker(rec, rd.r);
        assert l.mem[rd.r] == l.mem[rd.r..rd.r + |rec|][0];
        assert Holds(ss, rec, rd.r);
      }
    }
  }

  // ---- a reader beside the writers ----

  lemma BoundaryGrows(ss: seq<Slot>, to: nat, r: nat, s: Slot)
    requires Boundary(ss, to, r) && s.p == to && s.recs != []
    ensures Boundary(ss + [s], End(s), r)
  {
    if r == to {
      assert |s.recs[..0]| == 0;
      assert (ss + [s])[|ss|] == s && r == Start(s, 0);
    } else {
      var i, j :| 0 <= i < |ss| && 0 <= j < |ss[i].recs| && (j > 0 ==> ss[i].published) && r == Start(ss[i], j);
      assert (ss + [s])[i] == ss[i];
    }
  }

  lemma BoundaryUpdates(ss: seq<Slot>, to: nat, r: nat, i: nat, s: Slot)
    requires Boundary(ss, to, r) && i < |ss| && s.p == ss[i].p && s.recs == ss[i].recs
    requires ss[i].published ==> s.published
    ensures Boundary(ss[i := s], to, r)
  {
    if r != to {
      var k, j :| 0 <= k < |ss| && 0 <= j < |ss[k].recs| && (j > 0 ==> ss[k].published) && r == Start(ss[k], j);
      assert r == Start(ss[i := s][k], j);
    }
  }

  /** No step of a writer throws a reader off, short of overtaking it. */
  lemma StepKeepsTrack(l: Log, m: Move, rd: Reader)
    requires Inv(l) && Enabled(l, m) && OnTrack(l, rd)
    ensures OnTrack(Step(l, m), rd)
  {
    hide Inv, Boundary, Chain, Intact, Flat;
    match m
    case Take(recs) => TakeKeepsTrack(l, recs, rd);
    case WrapFront =>
    case WrapEnd(_) =>
    case Fill(at, k) =>
      var s := Slots(l, at)[at.i];
      UpdateKeepsTrack(l, Step(l, m), at, s.(done := s.done + {k}), rd);
    case Publish(at) =>
      var s := Slots(l, at)[at.i];
      UpdateKeepsTrack(l, Step(l, m), at, s.(published := true), rd);
  }

  lemma TakeKeepsTrack(l: Log, recs: seq<seq<Word>>, rd: Reader)
    requires Inv(l) && Enabled(l, Take(recs)) && OnTrack(l, rd)
    ensures OnTrack(Step(l, Take(recs)), rd)
  {
    if rd.lap == l.lap { BoundaryGrows(l.cur, l.ptr, rd.r, Slot(l.ptr, recs, {}, false)); }
  }

  lemma UpdateKeepsTrack(l: Log, l': Log, at: Place, s: Slot, rd: Reader)
    requires OnTrack(l, rd) && at.i < |Slots(l, at)|
    requires var was := Slots(l, at)[at.i]; s.p == was.p && s.recs == was.recs && (was.published ==> s.published)
    requires l' == SetSlot(l.(mem := l'.mem), at, s)
    ensures OnTrack(l', rd)
  {
    if at.Cur? && rd.lap == l.lap { BoundaryUpdates(l.cur, l.ptr, rd.r, at.i, s); }
    if at.Prev? && rd.lap + 1 == l.lap && rd.r > l.ptr { BoundaryUpdates(l.prev, l.brk, rd.r, at.i, s); }
  }

  /** The front of the log is where every reader can start. */
  lemma FrontIsOnTrack(l: Log)
    requires Inv(l)
    ensures OnTrack(l, Reader(l.lap, 1))
  {
    if l.cur != [] {
      assert Sound(l.cur[0]) && |l.cur[0].recs[..0]| == 0;
      assert 1 == Start(l.cur[0], 0);
    }
  }

  /** What a reader saw: where, in which lap, and the words it copied. */
  datatype Seen = Seen(lap: nat, r: nat, rec: seq<Word>)

  datatype Event = Write(m: Move) | Read | Front

  datatype System = System(log: Log, rd: Reader, seen: seq<Seen>)

  /** A reader that was not overtaken copies the record its header tells, or goes to the front when it meets
      the wrap marker, or the end marker once a new lap has begun. */
  ghost predicate Can(s: System, e: Event) {
    match e
    case Write(m) => Inv(s.log) && Enabled(s.log, m)
    case Read =>
      && !Overtaken(s.log, s.rd) && s.rd.r < |s.log.mem|
      && s.log.mem[s.rd.r] != ENDMARKER && s.log.mem[s.rd.r] != WRAPMARKER
    case Front =>
      && !Overtaken(s.log, s.rd) && s.rd.r < |s.log.mem|
      && (s.log.mem[s.rd.r] == WRAPMARKER || (s.log.mem[s.rd.r] == ENDMARKER && s.rd.lap != s.log.lap))
  }

  ghost function After(s: System, e: Event): System
    requires Can(s, e)
  {
    match e
    case Write(m) => s.(log := Step(s.log, m))
    case Read =>
      var n := Next(s.rd.r, s.log.mem[s.rd.r]);
      // past the buffer there is nothing to copy
      var rec := if n <= |s.log.mem| then s.log.mem[s.rd.r..n] else [];
      s.(rd := s.rd.(r := n), seen := s.seen + [Seen(s.rd.lap, s.rd.r, rec)])
    case Front => s.(rd := Reader(s.log.lap, 1))
  }

  ghost predicate Runs(s: System, es: seq<Event>, s': System)
    decreases |es|
  {
    if es == [] then s' == s else Can(s, es[0]) && Runs(After(s, es[0]), es[1..], s')
  }

  predicate Before(a: Seen, lap: nat, r: nat) { a.lap < lap || (a.lap == lap && a.r < r) }

  /** Everything seen is a whole record, in the order the room for it was taken, and behind the reader. */
  ghost predicate SystemOK(s: System) {
    && Inv(s.log) && OnTrack(s.log, s.rd)
    && (forall k :: 0 <= k < |s.seen| ==> IsRecord(s.seen[k].rec) && Before(s.seen[k], s.rd.lap, s.rd.r))
    && (forall i, k :: 0 <= i < k < |s.seen| ==> Before(s.seen[i], s.seen[k].lap, s.seen[k].r))
  }

  lemma ReadKeeps(s: System)
    requires SystemOK(s) && Can(s, Read)
    ensures SystemOK(After(s, Read))
    ensures Meets(s.log, s.rd, After(s, Read).seen[|s.seen|].rec)
  {
    hide Inv, OnTrack, IsRecord, Holds, Len, Words;
    var rec := ReaderMeetsWholeRecords(s.log, s.rd);
    SeenGrows(s.seen, s.rd, rec);
  }

  lemma SeenGrows(seen: seq<Seen>, rd: Reader, rec: seq<Word>)
    requires forall k :: 0 <= k < |seen| ==> IsRecord(seen[k].rec) && Before(seen[k], rd.lap, rd.r)
    requires forall i, k :: 0 <= i < k < |seen| ==> Before(seen[i], seen[k].lap, seen[k].r)
    requires IsRecord(rec) && |rec| > 0
    ensures var seen' := seen + [Seen(rd.lap, rd.r, rec)];
      && (forall k :: 0 <= k < |seen'| ==> IsRecord(seen'[k].rec) && Before(seen'[k], rd.lap, rd.r + |rec|))
      && (forall i, k :: 0 <= i < k < |seen'| ==> Before(seen'[i], seen'[k].lap, seen'[k].r))
  {
    hide IsRecord;
  }

  lemma FrontKeeps(s: System)
    requires SystemOK(s) && Can(s, Front)
    ensures SystemOK(After(s, Front))
  {
    FrontIsOnTrack(s.log);
    if s.rd.lap == s.log.lap { NoWrapHere(s.log, s.rd); }
    hide Inv, Boundary, IsRecord;
  }

  /** Wrap markers are met only at the end of the lap before. */
  lemma NoWrapHere(l: Log, rd: Reader)
    requires Inv(l) && OnTrack(l, rd) && rd.lap == l.lap
    ensures rd.r < |l.mem| && l.mem[rd.r] != WRAPMARKER
  {
    hide Intact, Chain, Sound, Flat;
    if rd.r != l.ptr {
      var i, j :| 0 <= i < |l.cur| && 0 <= j < |l.cur[i].recs| && (j > 0 ==> l.cur[i].published)
        && rd.r == Start(l.cur[i], j);
      ChainBounds(l.cur, 1, l.ptr, i);
      AtBoundary(l.mem, l.cur, 1, l.ptr, i, j, 0);
      if l.cur[i].published {
        HeaderIsNoMarker(l.cur[i].recs[j], rd.r);
        assert l.mem[rd.r] == l.mem[rd.r..rd.r + |l.cur[i].recs[j]|][0];
      }
    }
  }

  lemma EventKeeps(s: System, e: Event)
    requires SystemOK(s) && Can(s, e)
    ensures SystemOK(After(s, e))
  {
    match e
    case Write(m) =>
      StepKeepsInv(s.log, m);
      StepKeepsTrack(s.log, m, s.rd);
      hide Inv, OnTrack, Step;
    case Read => ReadKeeps(s);
    case Front => FrontKeeps(s);
  }

  lemma {:induction false} RunKeeps(s: System, es: seq<Event>, s': System)
    requires SystemOK(s) && Runs(s, es, s')
    ensures SystemOK(s')
    decreases |es|
  {
    hide SystemOK, Can, After;
    if es != [] {
      EventKeeps(s, es[0]);
      RunKeeps(After(s, es[0]), es[1..], s');
    }
  }

  /** However writers reserve, fill, publish and wrap in between, a reader that starts at the front of a new
      log sees whole records only, in the order their room was taken, and never leaves the buffer. */
  lemma ReaderSeesWholeRecordsInOrder(mem: seq<Word>, es: seq<Event>, s': System)
    requires |mem| > 1 && Runs(System(Init(mem), Reader(0, 1), []), es, s')
    ensures forall k :: 0 <= k < |s'.seen| ==> IsRecord(s'.seen[k].rec)
    ensures forall i, k :: 0 <= i < k < |s'.seen| ==> Before(s'.seen[i], s'.seen[k].lap, s'.seen[k].r)
    ensures !Overtaken(s'.log, s'.rd) ==> s'.rd.r < |s'.log.mem|
  {
    RunKeeps(System(Init(mem), Reader(0, 1), []), es, s');
    if !Overtaken(s'.log, s'.rd) { var rec := ReaderMeetsWholeRecords(s'.log, s'.rd); }
  }

  // ---- where records come from ----

  /** Some writer took room for the record. */
  ghost predicate Taken(es: seq<Event>, rec: seq<Word>) {
    exists i :: 0 <= i < |es| && es[i].Write? && es[i].m.Take? && rec in es[i].m.recs
  }

  ghost predicate AllTaken(es: seq<Event>, ss: seq<Slot>) {
    forall i, rec :: 0 <= i < |ss| && rec in ss[i].recs ==> Taken(es, rec)
  }

  /** All records in the log, and all that were seen, were brought by a writer. */
  ghost predicate Brought(es: seq<Event>, s: System) {
    AllTaken(es, s.log.cur) && AllTaken(es, s.log.prev)
    && forall k :: 0 <= k < |s.seen| ==> Taken(es, s.seen[k].rec)
  }

  lemma TakenGrows(es: seq<Event>, e: Event, rec: seq<Word>)
    requires Taken(es, rec)
    ensures Taken(es + [e], rec)
  {
    var i :| 0 <= i < |es| && es[i].Write? && es[i].m.Take? && rec in es[i].m.recs;
    assert (es + [e])[i] == es[i];
  }

  lemma AllTakenGrows(es: seq<Event>, e: Event, ss: seq<Slot>)
    requires AllTaken(es, ss)
    ensures AllTaken(es + [e], ss)
  {
    hide Taken;
    forall i, rec | 0 <= i < |ss| && rec in ss[i].recs ensures Taken(es + [e], rec) { TakenGrows(es, e, rec); }
  }

  lemma BroughtGrows(es: seq<Event>, e: Event, s: System)
    requires Brought(es, s)
    ensures Brought(es + [e], s)
  {
    hide Taken, AllTaken;
    AllTakenGrows(es, e, s.log.cur);
    AllTakenGrows(es, e, s.log.prev);
    forall k | 0 <= k < |s.seen| ensures Taken(es + [e], s.seen[k].rec) { TakenGrows(es, e, s.seen[k].rec); }
  }

  lemma SlotTaken(es: seq<Event>, ss: seq<Slot>, i: nat, s: Slot)
    requires AllTaken(es, ss) && i < |ss| && s.recs == ss[i].recs
    ensures AllTaken(es, ss[i := s])
  {
    hide Taken;
  }

  lemma NewSlotTaken(es: seq<Event>, ss: seq<Slot>, s: Slot)
    requires AllTaken(es, ss) && forall rec :: rec in s.recs ==> Taken(es, rec)
    ensures AllTaken(es, ss + [s])
  {
    hide Taken;
  }

  lemma WriteBrings(es: seq<Event>, s: System, m: Move)
    requires Brought(es, s) && Can(s, Write(m))
    ensures Brought(es + [Write(m)], After(s, Write(m)))
  {
    hide Taken, AllTaken, Inv;
    var es', l := es + [Write(m)], s.log;
    BroughtGrows(es, Write(m), s);
    match m
    case Take(recs) =>
      forall rec | rec in recs ensures Taken(es', rec) { TakenNow(es, m, rec); }
      NewSlotTaken(es', l.cur, Slot(l.ptr, recs, {}, false));
    case WrapFront => NoneTaken(es');
    case WrapEnd(_) =>
    case Fill(at, k) => PlaceTaken(es', l, at, Slots(l, at)[at.i].(done := Slots(l, at)[at.i].done + {k}));
    case Publish(at) => PlaceTaken(es', l, at, Slots(l, at)[at.i].(published := true));
  }

  lemma NoneTaken(es: seq<Event>)
    ensures AllTaken(es, [])
  {
  }

  lemma TakenNow(es: seq<Event>, m: Move, rec: seq<Word>)
    requires m.Take? && rec in m.recs
    ensures Taken(es + [Write(m)], rec)
  {
    assert (es + [Write(m)])[|es|] == Write(m);
  }

  lemma PlaceTaken(es: seq<Event>, l: Log, at: Place, s: Slot)
    requires AllTaken(es, l.cur) && AllTaken(es, l.prev) && at.i < |Slots(l, at)| && s.recs == Slots(l, at)[at.i].recs
    ensures AllTaken(es, SetSlot(l, at, s).cur) && AllTaken(es, SetSlot(l, at, s).prev)
  {
    hide AllTaken;
    if !at.Stale? { SlotTaken(es, Slots(l, at), at.i, s); }
  }

  /** A record met by a reader is one of those its slot was taken for. */
  lemma ReadBrings(es: seq<Event>, s: System)
    requires Brought(es, s) && SystemOK(s) && Can(s, Read)
    ensures Brought(es + [Read], After(s, Read))
  {
    hide Inv, OnTrack, IsRecord, Taken, AllTaken;
    ReadKeeps(s);
    var rec := After(s, Read).seen[|s.seen|].rec;
    var ss := if s.rd.lap == s.log.lap then s.log.cur else s.log.prev;
    var i, j :| 0 <= i < |ss| && ss[i].published && 0 <= j < |ss[i].recs| && ss[i].recs[j] == rec
      && s.rd.r == Start(ss[i], j);
    MemberTaken(es, ss, i, rec);
    BroughtGrows(es, Read, s);
    TakenGrows(es, Read, rec);
  }

  lemma MemberTaken(es: seq<Event>, ss: seq<Slot>, i: nat, rec: seq<Word>)
    requires AllTaken(es, ss) && i < |ss| && rec in ss[i].recs
    ensures Taken(es, rec)
  {
  }

  lemma {:induction false} RunBrings(before: seq<Event>, s: System, es: seq<Event>, s': System)
    requires Brought(before, s) && SystemOK(s) && Runs(s, es, s')
    ensures Brought(before + es, s')
    decreases |es|
  {
    hide Brought, SystemOK, Can, After;
    if es == [] {
      assert before + es == before;
    } else {
      var s1 := After(s, es[0]);
      match es[0] {
        case Write(m) => WriteBrings(before, s, m);
        case Read => ReadBrings(before, s);
        case Front => FrontBrings(before, s);
      }
      EventKeeps(s, es[0]);
      RunBrings(before + [es[0]], s1, es[1..], s');
      assert before + [es[0]] + es[1..] == before + es;
    }
  }

  lemma FrontBrings(es: seq<Event>, s: System)
    requires Brought(es, s) && Can(s, Front)
    ensures Brought(es + [Front], After(s, Front))
  {
    BroughtGrows(es, Front, s);
    hide Taken, AllTaken;
  }

  /** The record decodes to the arguments of some call. */
  ghost predicate Called(calls: set<Entry>, rec: seq<Word>) { exists e :: e in calls && Decodes(rec, e) }

  /** Each record seen is one that some writer took room for; so if writers only log what they are called with,
      the reader sees nothing but such calls: tag, identifier, length and content. */
  lemma RecordsSeenWereWritten(mem: seq<Word>, es: seq<Event>, s': System, calls: set<Entry>)
    requires |mem| > 1 && Runs(System(Init(mem), Reader(0, 1), []), es, s')
    requires forall i, rec :: 0 <= i < |es| && es[i].Write? && es[i].m.Take? && rec in es[i].m.recs ==>
      Called(calls, rec)
    ensures forall k :: 0 <= k < |s'.seen| ==> Taken(es, s'.seen[k].rec) && Called(calls, s'.seen[k].rec)
  {
    hide Runs, Called, Taken, AllTaken;
    RunBrings([], System(Init(mem), Reader(0, 1), []), es, s') by { NothingBrought(mem); }
    assert [] + es == es;
    forall k | 0 <= k < |s'.seen|
      ensures Taken(es, s'.seen[k].rec) && Called(calls, s'.seen[k].rec)
    {
      SomeCall(es, s'.seen[k].rec, calls);
    }
  }

  lemma NothingBrought(mem: seq<Word>)
    requires |mem| > 1
    ensures Brought([], System(Init(mem), Reader(0, 1), [])) && SystemOK(System(Init(mem), Reader(0, 1), []))
  {
  }

  lemma SomeCall(es: seq<Event>, rec: seq<Word>, calls: set<Entry>)
    requires Taken(es, rec)
    requires forall i, rec :: 0 <= i < |es| && es[i].Write? && es[i].m.Take? && rec in es[i].m.recs ==>
      Called(calls, rec)
    ensures Called(calls, rec)
  {
    hide Called;
  }

  /** And each record it copies stands in room that its writer has published. */
  lemma EveryRecordReadIsPublished(mem: seq<Word>, es: seq<Event>, s: System)
    requires |mem| > 1 && Runs(System(Init(mem), Reader(0, 1), []), es, s) && Can(s, Read)
    ensures Meets(s.log, s.rd, After(s, Read).seen[|s.seen|].rec)
  {
    RunKeeps(System(Init(mem), Reader(0, 1), []), es, s);
    ReadKeeps(s);
  }
}
