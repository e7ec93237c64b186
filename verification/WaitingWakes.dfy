/** Who is woken, and in which order: the queue of an object head is served from the front, as many at a time
    as a rush allows. */
module WaitingWakes {
  import opened Wrappers
  import opened WaitingList
  import opened WaitingRuns

  function Queued(h: Head): seq<nat> { if h.waiting.Some? then h.waiting.value else [] }

  /** From `h` to `h'`, the first sessions of the queue are woken, `rush` of them or all there are; the rest
      stays queued in order; and of the other sessions none but `mover` changes. */
  ghost predicate WakesFront(h: Head, h': Head, rush: nat, mover: Option<nat>) {
    var w := Queued(h);
    var k := if rush < |w| then rush else |w|;
    && (forall i :: 0 <= i < k ==> w[i] in h'.sess && h'.sess[w[i]].Woken?)
    && h'.waiting == (if k == |w| then None else Some(w[k..]))
    && (forall s :: s !in w[..k] && mover != Some(s) ==>
          (s in h'.sess <==> s in h.sess) && (s in h.sess ==> h'.sess[s] == h.sess[s]))
  }

  lemma RushWakesFront(h: Head, rush: nat)
    ensures WakesFront(h, Rush(h, rush), rush, None)
  {
    if h.waiting.Some? {
      var w := h.waiting.value;
      var k := Min(rush, |w|);
      WakeIs(h.sess, w[..k]);
      forall i | 0 <= i < k ensures w[i] in w[..k] { assert w[i] == w[..k][i]; }
    }
  }

  /** The same when the step has moved one session and touched counts before. */
  lemma WakesAfter(h: Head, h1: Head, rush: nat, s: nat)
    requires h1.waiting == h.waiting && forall r :: r != s ==>
      (r in h1.sess <==> r in h.sess) && (r in h.sess ==> h1.sess[r] == h.sess[r])
    ensures WakesFront(h, Rush(h1, rush), rush, Some(s))
  {
    RushWakesFront(h1, rush);
    hide Rush;
  }

  /** A session that moves is not in the queue, so it ends where its move puts it. */
  lemma MoverIsNotQueued(h: Head, h1: Head, s: nat, rush: nat)
    requires Queue(h) && h1.waiting == h.waiting && s in h.sess && !h.sess[s].Waiting?
    ensures s in Rush(h1, rush).sess <==> s in h1.sess
    ensures s in h1.sess ==> Rush(h1, rush).sess[s] == h1.sess[s]
    ensures Rush(h1, rush).objcs == h1.objcs && Rush(h1, rush).refcnt == h1.refcnt
    ensures Rush(h1, rush).extras == h1.extras && Rush(h1, rush).dying == h1.dying
  {
    if h1.waiting.Some? {
      var w := h1.waiting.value;
      WakeIs(h1.sess, w[..Min(rush, |w|)]);
      assert s !in w;
    }
  }

  lemma InvQueue(h: Head)
    requires Inv(h)
    ensures Queue(h)
  {
  }

  /** Which object cores there are, and how they stand, but for one. */
  ghost predicate SameOthers(h: Head, h': Head, oc: nat) {
    forall c :: c != oc ==> (c in h'.objcs <==> c in h.objcs) && (c in h.objcs ==> h'.objcs[c] == h.objcs[c])
  }

  /** HSH_Unbusy: the object is there for all, its fetcher holds it, and the front of the queue is woken. */
  lemma UnbusyWakes(h: Head, s: nat, rush: nat)
    requires Inv(h) && Enabled(h, Unbusy(s)) && Safe(h, Unbusy(s))
    ensures var h', oc := Step(h, Unbusy(s), rush), h.sess[s].oc;
      && WakesFront(h, h', rush, Some(s)) && s in h'.sess && h'.sess[s] == Holding(oc)
      && oc in h'.objcs && h'.objcs[oc] == Oc(h.objcs[oc].refcnt, false) && SameOthers(h, h', oc)
      && h'.refcnt == h.refcnt && h'.extras == h.extras && h'.dying == h.dying
  {
    hide Rush, Inv, Queue, WakesFront;
    InvQueue(h);
    var oc := h.sess[s].oc;
    var h1 := Put(PutOc(h, oc, h.objcs[oc].(busy := false)), s, Holding(oc));
    WakesAfter(h, h1, rush, s);
    MoverIsNotQueued(h, h1, s, rush);
  }

  /** HSH_Drop: the object core is gone, and the front of the queue is woken. */
  lemma DropWakes(h: Head, s: nat, rush: nat)
    requires Inv(h) && Enabled(h, Drop(s)) && Safe(h, Drop(s))
    ensures var h', oc := Step(h, Drop(s), rush), h.sess[s].oc;
      && WakesFront(h, h', rush, Some(s)) && s in h'.sess && h'.sess[s] == Releasing
      && oc !in h'.objcs && SameOthers(h, h', oc) && h'.refcnt == h.refcnt
  {
    hide Rush, Inv, Queue, WakesFront;
    InvQueue(h);
    var oc := h.sess[s].oc;
    var h1 := Put(h, s, Releasing).(objcs := h.objcs - {oc});
    WakesAfter(h, h1, rush, s);
    MoverIsNotQueued(h, h1, s, rush);
  }

  /** HSH_Deref by a session: one reference less, or the object core gone with the last, and the front of
      the queue is woken either way. */
  lemma ReleaseWakes(h: Head, s: nat, rush: nat)
    requires Inv(h) && Enabled(h, Release(s)) && Safe(h, Release(s))
    ensures var h', oc := Step(h, Release(s), rush), h.sess[s].oc;
      && WakesFront(h, h', rush, Some(s)) && SameOthers(h, h', oc) && h'.refcnt == h.refcnt
      && (h.objcs[oc].refcnt == 1 ==> oc !in h'.objcs && s in h'.sess && h'.sess[s] == Releasing)
      && (h.objcs[oc].refcnt > 1 ==>
            s !in h'.sess && oc in h'.objcs && h'.objcs[oc] == Oc(h.objcs[oc].refcnt - 1, h.objcs[oc].busy))
  {
    hide Rush, Inv, Queue, WakesFront;
    InvQueue(h);
    var oc := h.sess[s].oc;
    var h1 := if h.objcs[oc].refcnt == 1 then Put(h, s, Releasing).(objcs := h.objcs - {oc})
              else PutOc(h.(sess := h.sess - {s}), oc, h.objcs[oc].(refcnt := h.objcs[oc].refcnt - 1));
    WakesAfter(h, h1, rush, s);
    MoverIsNotQueued(h, h1, s, rush);
  }

  /** The same for a reference of the expiry queue or a purge. */
  lemma ReleaseExtraWakes(h: Head, oc: nat, rush: nat)
    requires Inv(h) && Enabled(h, ReleaseExtra(oc)) && Safe(h, ReleaseExtra(oc))
    ensures var h' := Step(h, ReleaseExtra(oc), rush);
      && WakesFront(h, h', rush, None) && SameOthers(h, h', oc) && h'.refcnt == h.refcnt
      && h'.extras == h.extras - multiset{oc}
      && (h.objcs[oc].refcnt == 1 ==> oc !in h'.objcs && h'.dying == h.dying + 1)
      && (h.objcs[oc].refcnt > 1 ==>
            oc in h'.objcs && h'.objcs[oc] == Oc(h.objcs[oc].refcnt - 1, h.objcs[oc].busy) && h'.dying == h.dying)
  {
    hide Rush, Inv;
    var c := h.objcs[oc];
    var h0 := h.(extras := h.extras - multiset{oc}, dying := if c.refcnt == 1 then h.dying + 1 else h.dying);
    var h1 := if c.refcnt == 1 then h0.(objcs := h.objcs - {oc}) else PutOc(h0, oc, c.(refcnt := c.refcnt - 1));
    RushWakesFront(h1, rush);
    RushKeepsRest(h1, rush);
  }

  lemma RushKeepsRest(h: Head, rush: nat)
    ensures var h' := Rush(h, rush);
      h'.objcs == h.objcs && h'.refcnt == h.refcnt && h'.extras == h.extras && h'.dying == h.dying
  {
  }

  /** Moves that end in a rush. */
  predicate Rushes(m: Move) { m.Unbusy? || m.Drop? || m.Release? || m.ReleaseExtra? }

  /** First come, first served: sessions join the queue at its end and leave it at its front, woken, and at no
      other moves than those that make an object available or let one go. */
  lemma QueueIsFifo(h: Head, m: Move, rush: nat)
    requires Inv(h) && Enabled(h, m) && Safe(h, m)
    ensures var w, h' := Queued(h), Step(h, m, rush);
      var k := if !Rushes(m) then 0 else if rush < |w| then rush else |w|;
      && Queued(h') == w[k..] + (if m.Wait? then [m.s] else [])
      && forall i :: 0 <= i < k ==> w[i] in h'.sess && h'.sess[w[i]].Woken?
  {
    match m
    case Unbusy(s) => UnbusyWakes(h, s, rush);
    case Drop(s) => DropWakes(h, s, rush);
    case Release(s) => ReleaseWakes(h, s, rush);
    case ReleaseExtra(oc) => ReleaseExtraWakes(h, oc, rush);
    case _ => assert Queued(h)[0..] == Queued(h);
  }

  // ---- how long an object stays ----

  /** What a session has a reference to is there. */
  lemma HeldIsThere(h: Head, rush: nat, s: nat, oc: nat)
    requires Reachable(h, rush) && rush >= 1 && s in h.sess && RefsOc(h.sess[s], oc)
    ensures oc in h.objcs && h.objcs[oc].refcnt > 0
  {
    ReachableInv(h, rush);
    assert OcCount(h, oc);
    assert s in OcRefs(h.sess, oc);
  }

  /** The references of the expiry queue and of purges hold an object until they are given up. */
  lemma {:induction false} ExtraHolds(h: Head, moves: seq<Move>, rush: nat, h': Head, oc: nat)
    requires Inv(h) && Runs(h, moves, rush, h') && rush >= 1 && oc in h.extras && ReleaseExtra(oc) !in moves
    ensures oc in h'.extras && oc in h'.objcs
    decreases |moves|
  {
    hide Inv, Enabled, Safe, Step;
    if moves == [] {
      ExtraIsThere(h, oc);
    } else {
      StepKeepsInv(h, moves[0], rush);
      ExtraStays(h, moves[0], rush, oc);
      ExtraHolds(Step(h, moves[0], rush), moves[1..], rush, h', oc);
    }
  }

  lemma ExtraIsThere(h: Head, oc: nat)
    requires Inv(h) && oc in h.extras
    ensures oc in h.objcs
  {
    assert OcCount(h, oc);
  }

  lemma ExtraStays(h: Head, m: Move, rush: nat, oc: nat)
    requires Enabled(h, m) && Safe(h, m) && oc in h.extras && m != ReleaseExtra(oc)
    ensures oc in Step(h, m, rush).extras
  {
    hide Wake;
  }

  /** An object that has been put into the cache stays there when its fetcher lets go, however sessions come and go,
      until the expiry queue gives it up. */
  lemma FilledOutlives(h: Head, s: nat, moves: seq<Move>, rush: nat, h': Head)
    requires Reachable(h, rush) && rush >= 1 && Enabled(h, Fill(s)) && Safe(h, Fill(s))
    requires Runs(Step(h, Fill(s), rush), moves, rush, h') && ReleaseExtra(h.sess[s].oc) !in moves
    ensures h.sess[s].oc in h'.objcs
  {
    ReachableInv(h, rush);
    StepKeepsInv(h, Fill(s), rush);
    var h1 := Step(h, Fill(s), rush);
    assert h.sess[s].oc in h1.extras;
    hide Inv, Step;
    ExtraHolds(h1, moves, rush, h', h.sess[s].oc);
  }

  /** And the same of an object that a purge or the expiry thread takes hold of. */
  lemma TakenHoldOf(h: Head, oc: nat, moves: seq<Move>, rush: nat, h': Head)
    requires Reachable(h, rush) && rush >= 1 && Enabled(h, RefExtra(oc)) && Safe(h, RefExtra(oc))
    requires Runs(Step(h, RefExtra(oc), rush), moves, rush, h') && ReleaseExtra(oc) !in moves
    ensures oc in h'.objcs
  {
    ReachableInv(h, rush);
    StepKeepsInv(h, RefExtra(oc), rush);
    var h1 := Step(h, RefExtra(oc), rush);
    assert oc in h1.extras;
    hide Inv, Step;
    ExtraHolds(h1, moves, rush, h', oc);
  }
}
