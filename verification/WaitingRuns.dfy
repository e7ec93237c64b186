/** Whole runs over an object head: no wake-up is lost, and what a rush of zero does. */
module WaitingRuns {
  import opened Wrappers
  import opened WaitingList

  ghost predicate Runs(h: Head, moves: seq<Move>, rush: nat, h': Head)
    decreases |moves|
  {
    if moves == [] then h' == h
    else Enabled(h, moves[0]) && Safe(h, moves[0]) && Runs(Step(h, moves[0], rush), moves[1..], rush, h')
  }

  lemma InitInv(s: nat)
    ensures Inv(Init(s))
  {
    var h := Init(s);
    assert HeadRefs(h.sess) == {s};
    forall oc: nat ensures OcCount(h, oc) { assert OcRefs(h.sess, oc) == {}; }
  }

  lemma {:induction false} RunKeepsInv(h: Head, moves: seq<Move>, rush: nat, h': Head)
    requires Inv(h) && Runs(h, moves, rush, h') && rush >= 1
    ensures Inv(h')
    decreases |moves|
  {
    hide Inv, Enabled, Safe;
    if moves != [] {
      StepKeepsInv(h, moves[0], rush);
      RunKeepsInv(Step(h, moves[0], rush), moves[1..], rush, h');
    }
  }

  ghost predicate Reachable(h: Head, rush: nat) {
    exists s, moves :: Runs(Init(s), moves, rush, h)
  }

  lemma ReachableInv(h: Head, rush: nat)
    requires Reachable(h, rush) && rush >= 1
    ensures Inv(h)
  {
    hide Inv;
    var s, moves :| Runs(Init(s), moves, rush, h);
    InitInv(s);
    RunKeepsInv(Init(s), moves, rush, h);
  }

  /** No lost wake-up: whenever sessions wait, there is a busy object core, a session already woken, or a
      session that holds an object and will rush when it lets go. */
  lemma WaitersHaveHope(h: Head, rush: nat)
    requires Reachable(h, rush) && rush >= 1 && h.waiting.Some?
    ensures Hope(h)
  {
    ReachableInv(h, rush);
  }

  /** The object head's count is the object cores on it, the sessions with a reference of their own, and
      releases under way; an object core's is the sessions holding it and the extra references. */
  lemma CountsAddUp(h: Head, rush: nat, oc: nat)
    requires Reachable(h, rush) && rush >= 1
    ensures h.refcnt == |h.objcs| + |HeadRefs(h.sess)| + h.dying
    ensures oc in h.objcs ==> h.objcs[oc].refcnt == |OcRefs(h.sess, oc)| + h.extras[oc] > 0
  {
    ReachableInv(h, rush);
    assert OcCount(h, oc);
  }

  /** Every assertion on the way holds, whatever happened before. */
  lemma AssertionsHold(h: Head, rush: nat, m: Move)
    requires Reachable(h, rush) && rush >= 1 && Enabled(h, m)
    ensures Safe(h, m)
  {
    ReachableInv(h, rush);
    MovesAreSafe(h, m);
  }

  /** A busy object core has exactly one session that will make it not busy or drop it. */
  lemma BusyHasOneOwner(h: Head, rush: nat, oc: nat)
    requires Reachable(h, rush) && rush >= 1 && oc in h.objcs && h.objcs[oc].busy
    ensures exists s: nat :: Owns(h.sess, s, oc) && OcRefs(h.sess, oc) == {s}
  {
    ReachableInv(h, rush);
    assert Owned(h, oc);
    var s :| Owns(h.sess, s, oc);
    OwnerAlone(h, s, oc);
  }

  // ---- those who wait can be woken ----

  ghost predicate CanWake(h: Head, rush: nat, s: nat) {
    exists moves, h' :: Runs(h, moves, rush, h') && s in h'.sess && h'.sess[s].Woken?
  }

  lemma WakeNow(h: Head, m: Move, rush: nat, h1: Head)
    requires Queue(h1) && h1.waiting.Some? && rush >= 1 && Enabled(h, m) && Safe(h, m)
    requires Step(h, m, rush) == Rush(h1, rush)
    ensures CanWake(h, rush, h1.waiting.value[0])
  {
    hide Safe, Enabled;
    var w := h1.waiting.value;
    WakeIs(h1.sess, w[..Min(rush, |w|)]);
    assert w[0] in w[..Min(rush, |w|)];
    var h' := Step(h, m, rush);
    assert [m][1..] == [];
    assert Runs(h', [], rush, h');
    assert Runs(h, [m], rush, h');
  }

  lemma WakeLater(h: Head, m: Move, rush: nat, s: nat)
    requires Enabled(h, m) && Safe(h, m) && CanWake(Step(h, m, rush), rush, s)
    ensures CanWake(h, rush, s)
  {
    hide Safe, Enabled;
    var moves, h' :| Runs(Step(h, m, rush), moves, rush, h') && s in h'.sess && h'.sess[s].Woken?;
    assert ([m] + moves)[1..] == moves;
    assert Runs(h, [m] + moves, rush, h');
  }

  lemma OwnerWakes(h: Head, rush: nat, s: nat, oc: nat)
    requires Inv(h) && h.waiting.Some? && rush >= 1 && Owns(h.sess, s, oc)
    ensures CanWake(h, rush, h.waiting.value[0])
  {
    MovesAreSafe(h, Unbusy(s));
    var h1 := Put(PutOc(h, oc, h.objcs[oc].(busy := false)), s, Holding(oc));
    QueueStays(h, h1, s);
    hide Inv;
    WakeNow(h, Unbusy(s), rush, h1);
  }

  lemma HolderWakes(h: Head, rush: nat, s: nat)
    requires Inv(h) && h.waiting.Some? && rush >= 1 && s in h.sess && h.sess[s].Holding?
    ensures CanWake(h, rush, h.waiting.value[0])
  {
    MovesAreSafe(h, Release(s));
    var oc := h.sess[s].oc;
    var h1 := Unrushed(if h.objcs[oc].refcnt == 1 then Put(h, s, Releasing) else h.(sess := h.sess - {s}), oc);
    QueueStays(h, h1, s);
    hide Inv;
    WakeNow(h, Release(s), rush, h1);
  }

  lemma FinderWakes(h: Head, rush: nat, s: nat)
    requires Inv(h) && h.waiting.Some? && rush >= 1 && s in h.sess && h.sess[s].HitUnref?
    ensures CanWake(h, rush, h.waiting.value[0])
  {
    MovesAreSafe(h, HitDeref(s));
    StepKeepsInv(h, HitDeref(s), rush);
    hide Inv;
    HolderWakes(Step(h, HitDeref(s), rush), rush, s);
    WakeLater(h, HitDeref(s), rush, h.waiting.value[0]);
  }

  /** A session already woken finds an object and lets go of it in the end, or fetches one. */
  lemma WokenWakes(h: Head, rush: nat, s: nat)
    requires Inv(h) && h.waiting.Some? && rush >= 1 && s in h.sess && h.sess[s].Woken?
    ensures CanWake(h, rush, h.waiting.value[0])
  {
    var w := h.waiting.value[0];
    if oc :| oc in h.objcs && !h.objcs[oc].busy {
      MovesAreSafe(h, Hit(s, oc));
      StepKeepsInv(h, Hit(s, oc), rush);
      hide Inv;
      FinderWakes(Step(h, Hit(s, oc), rush), rush, s);
      WakeLater(h, Hit(s, oc), rush, w);
    } else {
      var oc := Above(h.objcs.Keys);
      assert OcCount(h, oc);
      assert forall p :: p in OcRefs(h.sess, oc) <==> p in h.sess && RefsOc(h.sess[p], oc);
      MovesAreSafe(h, Miss(s, oc));
      StepKeepsInv(h, Miss(s, oc), rush);
      hide Inv;
      OwnerWakes(Step(h, Miss(s, oc), rush), rush, s, oc);
      WakeLater(h, Miss(s, oc), rush, w);
    }
  }

  /** From every reachable state, some run of moves the program can make wakes the first in the queue. */
  lemma FirstWaiterCanBeWoken(h: Head, rush: nat)
    requires Reachable(h, rush) && rush >= 1 && h.waiting.Some?
    ensures h.waiting.value != [] && CanWake(h, rush, h.waiting.value[0])
  {
    ReachableInv(h, rush);
    if oc :| oc in h.objcs && h.objcs[oc].busy {
      assert Owned(h, oc);
      var s :| Owns(h.sess, s, oc);
      OwnerWakes(h, rush, s, oc);
    } else if s :| s in h.sess && h.sess[s].Woken? {
      WokenWakes(h, rush, s);
    } else {
      var s :| s in h.sess && (h.sess[s].Holding? || h.sess[s].HitUnref?);
      if h.sess[s].Holding? { HolderWakes(h, rush, s); } else { FinderWakes(h, rush, s); }
    }
  }

  // ---- a rush of zero strands sessions ----

  /** With rush_exponent at zero a session can be left waiting with nobody to wake it: another one came
      first, fetched, delivered and went. */
  lemma ZeroRushStrands()
    ensures exists h :: Reachable(h, 0) && h.waiting == Some([1]) && !Hope(h)
  {
    hide Runs;
    var h3 := Head(map[7 := Oc(1, true)], Some([1]), 2, map[0 := Fetching(7), 1 := Waiting], multiset{}, 0);
    var h6 := Head(map[], Some([1]), 1, map[1 := Waiting], multiset{}, 0);
    StrandsAfter(h3, h6);
    StrandsBefore(h3, h6);
    assert Reachable(h6, 0);
  }

  lemma StrandsAfter(h3: Head, h6: Head)
    requires h3 == Head(map[7 := Oc(1, true)], Some([1]), 2, map[0 := Fetching(7), 1 := Waiting], multiset{}, 0)
    requires h6 == Head(map[], Some([1]), 1, map[1 := Waiting], multiset{}, 0)
    ensures Runs(h3, [Unbusy(0)] + ([Release(0)] + ([HeadDeref(0)] + [])), 0, h6)
  {
    hide Runs;
    var h5 := Head(map[], Some([1]), 2, map[0 := Releasing, 1 := Waiting], multiset{}, 0);
    StrandsLast(h5, h6);
    var h4 := Head(map[7 := Oc(1, false)], Some([1]), 2, map[0 := Holding(7), 1 := Waiting], multiset{}, 0);
    StrandsRelease(h4, h5);
    Take(h6, Release(0), h4, [HeadDeref(0)] + [], h5);
    NoRush(h4);
    assert Step(h3, Unbusy(0), 0) == h4;
    Take(h6, Unbusy(0), h3, [Release(0)] + ([HeadDeref(0)] + []), h4);
  }

  lemma StrandsRelease(h4: Head, h5: Head)
    requires h4 == Head(map[7 := Oc(1, false)], Some([1]), 2, map[0 := Holding(7), 1 := Waiting], multiset{}, 0)
    requires h5 == Head(map[], Some([1]), 2, map[0 := Releasing, 1 := Waiting], multiset{}, 0)
    ensures Enabled(h4, Release(0)) && Safe(h4, Release(0)) && Step(h4, Release(0), 0) == h5
  {
    NoRush(h5);
    assert h4.objcs - {7} == map[];
  }

  lemma StrandsLast(h5: Head, h6: Head)
    requires h5 == Head(map[], Some([1]), 2, map[0 := Releasing, 1 := Waiting], multiset{}, 0)
    requires h6 == Head(map[], Some([1]), 1, map[1 := Waiting], multiset{}, 0)
    ensures Runs(h5, [HeadDeref(0)] + [], 0, h6)
  {
    assert Step(h5, HeadDeref(0), 0) == h6;
    Take(h6, HeadDeref(0), h5, [], h6);
  }

  lemma StrandsWait(h2: Head, h3: Head)
    requires h2 == Head(map[7 := Oc(1, true)], None, 2, map[0 := Fetching(7), 1 := Looking], multiset{}, 0)
    requires h3 == Head(map[7 := Oc(1, true)], Some([1]), 2, map[0 := Fetching(7), 1 := Waiting], multiset{}, 0)
    ensures Enabled(h2, Wait(1)) && Safe(h2, Wait(1)) && Step(h2, Wait(1), 0) == h3
  {
    assert h2.objcs[7].busy;
  }

  lemma StrandsBefore(h3: Head, h6: Head)
    requires h3 == Head(map[7 := Oc(1, true)], Some([1]), 2, map[0 := Fetching(7), 1 := Waiting], multiset{}, 0)
    requires Runs(h3, [Unbusy(0)] + ([Release(0)] + ([HeadDeref(0)] + [])), 0, h6)
    ensures exists moves :: Runs(Init(0), moves, 0, h6)
  {
    hide Runs, Enabled, Safe, Step;
    var rest := [Unbusy(0)] + ([Release(0)] + ([HeadDeref(0)] + []));
    var h1 := Head(map[7 := Oc(1, true)], None, 1, map[0 := Fetching(7)], multiset{}, 0);
    var h2 := Head(map[7 := Oc(1, true)], None, 2, map[0 := Fetching(7), 1 := Looking], multiset{}, 0);
    StrandsWait(h2, h3);
    Take(h6, Wait(1), h2, rest, h3);
    StrandsArrive(h1, h2);
    Take(h6, Arrive(1), h1, [Wait(1)] + rest, h2);
    StrandsMiss(h1);
    Take(h6, Miss(0, 7), Init(0), [Arrive(1)] + ([Wait(1)] + rest), h1);
  }

  lemma StrandsArrive(h1: Head, h2: Head)
    requires h1 == Head(map[7 := Oc(1, true)], None, 1, map[0 := Fetching(7)], multiset{}, 0)
    requires h2 == Head(map[7 := Oc(1, true)], None, 2, map[0 := Fetching(7), 1 := Looking], multiset{}, 0)
    ensures Enabled(h1, Arrive(1)) && Safe(h1, Arrive(1)) && Step(h1, Arrive(1), 0) == h2
  {
  }

  lemma StrandsMiss(h1: Head)
    requires h1 == Head(map[7 := Oc(1, true)], None, 1, map[0 := Fetching(7)], multiset{}, 0)
    ensures Enabled(Init(0), Miss(0, 7)) && Safe(Init(0), Miss(0, 7)) && Step(Init(0), Miss(0, 7), 0) == h1
  {
  }

  lemma NoRush(h: Head)
    requires Queue(h)
    ensures Rush(h, 0) == h
  {
  }

  lemma Take(h': Head, m: Move, h: Head, rest: seq<Move>, next: Head)
    requires Enabled(h, m) && Safe(h, m) && Step(h, m, 0) == next && Runs(next, rest, 0, h')
    ensures Runs(h, [m] + rest, 0, h')
  {
    assert ([m] + rest)[1..] == rest;
  }
}
