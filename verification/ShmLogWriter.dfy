/** The writers of the shared-memory log, as they run: each write to the buffer is a step of the log. */
module ShmLogWriter {
  import opened Seqs
  import opened ShmLog

  /** The log after vsl_wrap. */
  ghost function Wrapped(l: Log, serial: Word): (r: Log)
    requires Inv(l) && Enabled(l, WrapFront)
    ensures Inv(r) && !r.wrapping && r.ptr == 1 && r.cur == [] && r.lap == l.lap + 1 && |r.mem| == |l.mem|
    ensures r.mem[0] == serial && r.prev == l.cur && r.stale == Pending(l.stale, l.ptr) + Pending(l.prev, l.ptr)
    ensures r.mem == l.mem[1 := ENDMARKER][0 := serial][l.ptr := WRAPMARKER]
  {
    StepKeepsInv(l, WrapFront);
    var l1 := Step(l, WrapFront);
    StepKeepsInv(l1, WrapEnd(serial));
    Step(l1, WrapEnd(serial))
  }

  lemma TakeEffect(l: Log, recs: seq<seq<Word>>)
    requires Inv(l) && Enabled(l, ShmLog.Take(recs))
    ensures var l', n := Step(l, ShmLog.Take(recs)), l.ptr + |Flat(recs)|;
      && Inv(l') && !l'.wrapping && n < |l.mem| && l'.mem == l.mem[n := ENDMARKER] && l'.ptr == n
      && l'.cur == l.cur + [Slot(l.ptr, recs, {}, false)] && l'.lap == l.lap
  {
    StepKeepsInv(l, ShmLog.Take(recs));
    var l' := Step(l, ShmLog.Take(recs));
    hide Intact, Chain, StaleOK, Sound, Flat, Pending;
    assert Inv(l');
  }

  function Range(from: nat, to: nat): (r: set<nat>)
    ensures forall k :: k in r <==> from <= k < to
  {
    if from >= to then {} else Range(from, to - 1) + {to - 1}
  }

  /** What vsl_get takes for granted: no writer of an earlier lap is still at the words it hands out. */
  ghost predicate NotInUse(l: Log, size: nat) {
    if l.ptr + size < |l.mem| then EarlierPast(l, l.ptr + size)
    else EarlierPast(l, 1 + size) && forall i :: 0 <= i < |l.cur| && !l.cur[i].published ==> l.cur[i].p > 1 + size
  }

  lemma FrontFree(l: Log, size: nat)
    requires Inv(l) && !l.wrapping && NotInUse(l, size) && 1 + size < |l.mem| <= l.ptr + size
    ensures Enabled(l, WrapFront)
    ensures forall serial :: EarlierPast(Wrapped(l, serial), 1 + size)
  {
    hide Inv, Intact, Chain;
  }

  class Vsl {
    var mem: array<Word>
    var ptr: nat
    ghost var log: Log

    ghost predicate Valid() reads this, mem {
      mem[..] == log.mem && ptr == log.ptr && Inv(log) && !log.wrapping
    }

    /** The `size` words that vsl_get is about to hand out are not still being written by a writer of an
        earlier lap. Other writers may be at work on theirs. */
    ghost predicate Free(size: nat) reads this { NotInUse(log, size) }

    constructor (n: nat)
      requires n > 1
      ensures Valid() && fresh(mem) && mem.Length == n && log.cur == [] && forall size: nat :: Free(size)
    {
      mem := new Word[n](_ => 0);
      ptr := 1;
      new;
      log := Init(mem[..]);
      mem[1] := ENDMARKER;
    }

    /** The serial number of the next lap, which is not zero. */
    method NewSerial()
      requires mem.Length > 0
      modifies mem
      ensures mem[0] == (if old(mem[0]) == 0xffff_ffff then 1 else old(mem[0]) + 1)
      ensures mem[..] == old(mem[..])[0 := mem[0]]
    {
      var serial: nat := mem[0];
      serial := (serial + 1) % 0x1_0000_0000;
      if serial == 0 { serial := 1; }
      mem[0] := serial;
    }

    /** vsl_wrap: a new front, a new serial number that is not zero, and a marker at the old end. */
    method Wrap()
      requires Valid() && Enabled(log, WrapFront)
      modifies this, mem
      ensures Valid() && mem == old(mem) && ptr == 1
      ensures mem[0] == (if old(mem[0]) == 0xffff_ffff then 1 else old(mem[0]) + 1)
      ensures mem[0] != 0 && mem[0] != old(mem[0])
      ensures log == Wrapped(old(log), mem[0])
    {
      ghost var l := log;
      mem[1] := ENDMARKER;
      NewSerial();
      log := Wrapped(l, mem[0]);
      hide Inv, Enabled, Wrapped;
      mem[ptr] := WRAPMARKER;
      ptr := 1;
    }

    /** Wraps if the room left is too small. */
    method MakeRoom(size: nat, ghost recs: seq<seq<Word>>)
      requires Valid() && Free(size) && size == |Flat(recs)| && Sound(Slot(ptr, recs, {}, false))
      requires 1 + size < mem.Length
      modifies this, mem
      ensures Valid() && mem == old(mem) && ptr + size < mem.Length && Enabled(log, ShmLog.Take(recs))
      ensures log.cur == if old(ptr) + size >= mem.Length then [] else old(log.cur)
      ensures log.lap == old(log.lap) + if old(ptr) + size >= mem.Length then 1 else 0
    {
      hide IsRecord, Flat, Inv, Intact;
      if ptr + size >= mem.Length {
        FrontFree(log, size);
        Wrap();
      }
    }

    /** Takes the room at `ptr`, with an end marker behind it. */
    method Take(size: nat, ghost recs: seq<seq<Word>>)
      requires Valid() && Enabled(log, ShmLog.Take(recs)) && size == |Flat(recs)| && ptr + size < mem.Length
      modifies this, mem
      ensures mem == old(mem) && Filling(old(ptr), recs, {}, old(log.cur)) && log.lap == old(log.lap)
    {
      hide Inv, Flat, Enabled, Step;
      TakeEffect(log, recs);
      log := Step(log, ShmLog.Take(recs));
      ptr := ptr + size;
      mem[ptr] := ENDMARKER;
    }

    /** vsl_get: room for `size` words. */
    method Get(size: nat, ghost recs: seq<seq<Word>>) returns (p: nat)
      requires Valid() && Free(size) && size == |Flat(recs)| && Sound(Slot(ptr, recs, {}, false))
      requires 1 + size < mem.Length
      modifies this, mem
      ensures mem == old(mem) && Filling(p, recs, {}, if old(ptr) + size >= mem.Length then [] else old(log.cur))
      ensures log.lap == old(log.lap) + if old(ptr) + size >= mem.Length then 1 else 0
    {
      hide Inv, Flat, Sound, Enabled, Filling;
      MakeRoom(size, recs);
      p := ptr;
      Take(size, recs);
    }

    /** The slot reserved last, with the words written so far. */
    ghost predicate Filling(p: nat, recs: seq<seq<Word>>, done: set<nat>, cur0: seq<Slot>) reads this, mem {
      Valid() && log.cur == cur0 + [Slot(p, recs, done, false)]
    }

    /** What the log looks like after records were written in one piece. */
    ghost predicate Logged(recs: seq<seq<Word>>, cur0: seq<Slot>) reads this, mem {
      && Valid() && |log.cur| == |cur0| + 1 && log.cur[..|cur0|] == cur0
      && log.cur[|cur0|].recs == recs && log.cur[|cur0|].published
    }

    /** The log ends in published records that decode to `es`. */
    ghost predicate Tells(es: seq<Entry>, cur0: seq<Slot>) reads this, mem {
      && Valid() && |log.cur| == |cur0| + 1 && log.cur[..|cur0|] == cur0
      && AllDecode(log.cur[|cur0|].recs, es) && log.cur[|cur0|].published
    }

    lemma LoggedTells(recs: seq<seq<Word>>, es: seq<Entry>, cur0: seq<Slot>)
      requires Logged(recs, cur0) && AllDecode(recs, es)
      ensures Tells(es, cur0)
    {
    }

    /** Copies words `from` up to `to` of a reservation. */
    method Copy(p: nat, words: seq<Word>, from: nat, to: nat, ghost recs: seq<seq<Word>>, ghost done: set<nat>,
                ghost cur0: seq<Slot>)
      requires words == Flat(recs) && 0 < from <= to <= |words| && Filling(p, recs, done, cur0)
      modifies `log, mem
      ensures Filling(p, recs, done + Range(from, to), cur0)
    {
      hide Inv;
      var k := from;
      assert done + Range(from, from) == done;
      while k < to
        invariant from <= k <= to && Filling(p, recs, done + Range(from, k), cur0)
      {
        Room(log, Cur(|cur0|));
        mem[p + k] := words[k];
        StepKeepsInv(log, Fill(Cur(|cur0|), k));
        log := Step(log, Fill(Cur(|cur0|), k));
        assert done + Range(from, k) + {k} == done + Range(from, k + 1);
        k := k + 1;
      }
    }

    /** Writing the header word last makes the reservation visible. */
    method Header(p: nat, word: Word, ghost recs: seq<seq<Word>>, ghost done: set<nat>, ghost cur0: seq<Slot>)
      requires Filling(p, recs, done, cur0) && Flat(recs) != [] && word == Flat(recs)[0]
      requires forall k :: 0 < k < |Flat(recs)| ==> k in done
      modifies `log, mem
      ensures Logged(recs, cur0)
    {
      Room(log, Cur(|cur0|));
      hide Inv;
      mem[p] := word;
      StepKeepsInv(log, Publish(Cur(|cur0|)));
      log := Step(log, Publish(Cur(|cur0|)));
    }

    /** VSLR: a record goes straight to the log, content first, then the identifier, then the header.
        `data` are the words of the content, already cut to the longest length allowed. */
    method VSLR(tag: nat, id: Word, data: seq<Word>, len: nat)
      requires Valid() && Free(2 + |data|) && tag < 255 && len < 0x10000 && |data| == Words(len)
      requires 3 + |data| < mem.Length
      modifies this, mem
      ensures mem == old(mem)
      ensures Tells([Entry(tag, id, len, data)], if old(ptr) + 2 + |data| >= mem.Length then [] else old(log.cur))
    {
      var rec := Record(tag, id, data, len);
      OneRecord(ptr, tag, id, data, len);
      RecordDecodes(tag, id, data, len);
      AllOne(rec, Entry(tag, id, len, data));
      hide Inv, Flat, Sound, IsRecord, Filling, Logged, Record, Decodes, AllDecode, Tells;
      ghost var cur0 := if ptr + |rec| >= mem.Length then [] else log.cur;
      var p := Get(|rec|, [rec]);
      Copy(p, rec, 2, |rec|, [rec], {}, cur0);
      ghost var done := {} + Range(2, |rec|);
      Copy(p, rec, 1, 2, [rec], done, cur0);
      Header(p, rec[0], [rec], done + Range(1, 2), cur0);
      LoggedTells([rec], [Entry(tag, id, len, data)], cur0);
    }

    /** The shared log's side of WSL_Flush: the whole batch becomes visible with its first header. */
    method Flush(words: seq<Word>, ghost recs: seq<seq<Word>>)
      requires Valid() && words != [] && words == Flat(recs)
      requires Free(|words|) && Sound(Slot(ptr, recs, {}, false))
      requires 1 + |words| < mem.Length
      modifies this, mem
      ensures mem == old(mem)
      ensures Logged(recs, if old(ptr) + |words| >= mem.Length then [] else old(log.cur))
    {
      hide Inv, Flat, Sound, IsRecord, Filling, Logged;
      ghost var cur0 := if ptr + |words| >= mem.Length then [] else log.cur;
      var p := Get(|words|, recs);
      Copy(p, words, 1, |words|, recs, {}, cur0);
      Header(p, words[0], recs, {} + Range(1, |words|), cur0);
    }
  }

  function Record(tag: nat, id: Word, data: seq<Word>, len: nat): seq<Word>
    requires tag < 255 && len < 0x10000
  {
    [ShmLog.Header(tag, len), id] + data
  }

  lemma RecordDecodes(tag: nat, id: Word, data: seq<Word>, len: nat)
    requires tag < 255 && len < 0x10000 && |data| == Words(len)
    ensures Decodes(Record(tag, id, data, len), Entry(tag, id, len, data))
  {
    var w := ShmLog.Header(tag, len);
    assert w / 0x100_0000 == tag && w % 0x10000 == len;
  }

  lemma OneRecord(p: nat, tag: nat, id: Word, data: seq<Word>, len: nat)
    requires tag < 255 && len < 0x10000 && |data| == Words(len)
    ensures var rec := Record(tag, id, data, len);
      IsRecord(rec) && Flat([rec]) == rec && Sound(Slot(p, [rec], {}, false)) && |rec| == 2 + |data|
  {
    var rec := Record(tag, id, data, len);
    assert rec[0] == ShmLog.Header(tag, len);
    var one := [rec];
    assert |one[1..]| == 0;
  }

  /** A worker's buffer: room for `size` words, with whole records in it. */
  class Worker {
    var wlb: seq<Word>
    const size: nat
    ghost var recs: seq<seq<Word>>
    /** What the records in the buffer were made of. */
    ghost var entries: seq<Entry>

    ghost predicate Valid() reads this {
      && wlb == Flat(recs) && |wlb| < size && (forall j :: 0 <= j < |recs| ==> IsRecord(recs[j]))
      && AllDecode(recs, entries)
    }

    constructor (size: nat)
      requires size > 0
      ensures Valid() && entries == [] && this.size == size
    {
      wlb, recs, entries, this.size := [], [], [], size;
    }

    /** WSLR: a record is put behind those in the buffer; if there is no room they are flushed first. */
    method WSLR(shm: Vsl, tag: nat, id: Word, data: seq<Word>, len: nat)
      requires Valid() && shm.Valid() && tag < 255 && len < 0x10000 && |data| == Words(len)
      requires 2 + |data| < size <= shm.mem.Length - 2
      requires wlb != [] && |wlb| + 2 + |data| >= size ==> shm.Free(|wlb|)
      modifies this, shm, shm.mem
      ensures Valid() && shm.mem == old(shm.mem)
      ensures var flushed := old(|wlb|) + 2 + |data| >= size;
        entries == (if flushed then [] else old(entries)) + [Entry(tag, id, len, data)]
      ensures var flushed := old(|wlb|) + 2 + |data| >= size && old(entries) != [];
        && (!flushed ==> shm.log == old(shm.log))
        && (flushed ==> shm.Tells(old(entries),
              if old(shm.ptr) + old(|wlb|) >= shm.mem.Length then [] else old(shm.log.cur)))
    {
      var rec := Record(tag, id, data, len);
      OneRecord(0, tag, id, data, len);
      RecordDecodes(tag, id, data, len);
      hide Flat, IsRecord, Sound, Record, Inv, Decodes, AllDecode, Vsl.Tells;
      AsMany(recs, entries);
      NonEmptyBatch(shm.ptr, recs);
      if |wlb| + |rec| >= size { FlushBatch(shm); }
      FlatSnoc(recs, rec);
      AllSnoc(recs, entries, rec, Entry(tag, id, len, data));
      wlb, recs, entries := wlb + rec, recs + [rec], entries + [Entry(tag, id, len, data)];
    }

    /** WSL_Flush: the batch goes to the shared log and the buffer is empty. */
    method FlushBatch(shm: Vsl)
      requires Valid() && shm.Valid() && 1 + |wlb| < shm.mem.Length
      requires wlb != [] ==> shm.Free(|wlb|)
      modifies this, shm, shm.mem
      ensures Valid() && entries == [] && shm.mem == old(shm.mem)
      ensures old(entries) == [] ==> shm.log == old(shm.log) && shm.Valid()
      ensures old(entries) != [] ==> shm.Tells(old(entries),
        if old(shm.ptr) + old(|wlb|) >= shm.mem.Length then [] else old(shm.log.cur))
    {
      hide Flat, IsRecord, Sound, Inv, Decodes, AllDecode, Vsl.Logged, Vsl.Tells;
      AsMany(recs, entries);
      NonEmptyBatch(shm.ptr, recs);
      if |wlb| == 0 { return; }
      ghost var cur0 := if shm.ptr + |wlb| >= shm.mem.Length then [] else shm.log.cur;
      shm.Flush(wlb, recs);
      shm.LoggedTells(recs, entries, cur0);
      EmptyBatch();
      wlb, recs, entries := [], [], [];
    }
  }

  lemma EmptyBatch()
    ensures Flat<Word>([]) == [] && AllDecode([], [])
  {
  }

  lemma AllOne(rec: seq<Word>, e: Entry)
    requires Decodes(rec, e)
    ensures AllDecode([rec], [e])
  {
  }

  lemma AllSnoc(recs: seq<seq<Word>>, es: seq<Entry>, rec: seq<Word>, e: Entry)
    requires AllDecode(recs, es) && Decodes(rec, e)
    ensures AllDecode(recs + [rec], es + [e])
  {
    hide Decodes;
  }

  lemma AsMany(recs: seq<seq<Word>>, es: seq<Entry>)
    requires AllDecode(recs, es)
    ensures |recs| == |es|
  {
  }

  lemma NonEmptyBatch(p: nat, recs: seq<seq<Word>>)
    requires forall j :: 0 <= j < |recs| ==> IsRecord(recs[j])
    ensures recs == [] <==> Flat(recs) == []
    ensures recs != [] ==> Sound(Slot(p, recs, {}, false))
  {
    if recs != [] { HeaderIsNoMarker(recs[0], 0); }
  }
}
