/** One object head under contention: sessions that look up, wait for busy objects, fetch and let go, and
    the two reference counts. Lock-held regions are atomic steps. */
module WaitingList {
  import opened Wrappers

  /** Where a session stands with respect to the object head. `Looking` came from the hash with a reference
      to the head, `Woken` from the waiting list with the one it queued with; both are about to enter the
      lock region of HSH_Lookup. `Filled` has an object in the cache that is still busy, `HitUnref` has
      found an object and still has its reference to the head, `Releasing` has destroyed an object core
      and still has that one's. */
  datatype Sess =
    | Looking
    | Waiting
    | Woken
    | Fetching(oc: nat)
    | Filled(oc: nat)
    | Holding(oc: nat)
    | HitUnref(oc: nat)
    | Releasing

  /** Sessions whose reference counts on the object head. */
  predicate RefsHead(t: Sess) {
    t.Looking? || t.Waiting? || t.Woken? || t.HitUnref? || t.Releasing?
  }

  /** Sessions that hold a reference to object core `oc`. */
  predicate RefsOc(t: Sess, oc: nat) {
    (t.Fetching? || t.Filled? || t.Holding? || t.HitUnref?) && t.oc == oc
  }

  datatype Oc = Oc(refcnt: nat, busy: bool)

  /** `extras` are references held by the expiry queue and by purges; `dying` counts their releases that
      destroyed an object core and still have its reference to the head. */
  datatype Head = Head(
    objcs: map<nat, Oc>,
    waiting: Option<seq<nat>>,
    refcnt: nat,
    sess: map<nat, Sess>,
    extras: multiset<nat>,
    dying: nat)

  /** A fresh object head, with the session that brought it. */
  function Init(s: nat): Head {
    Head(map[], None, 1, map[s := Looking], multiset{}, 0)
  }

  function Put(h: Head, s: nat, t: Sess): Head { h.(sess := h.sess[s := t]) }

  function PutOc(h: Head, oc: nat, c: Oc): Head { h.(objcs := h.objcs[oc := c]) }

  // ---- waking ----

  function Wake(sess: map<nat, Sess>, ss: seq<nat>): map<nat, Sess> {
    if ss == [] then sess else Wake(sess, ss[..|ss| - 1])[ss[|ss| - 1] := Woken]
  }

  function Min(a: nat, b: nat): nat { if a < b then a else b }

  /** hsh_rush, where there is a waiting list: up to `rush` sessions come off its front. */
  function Rush(h: Head, rush: nat): Head {
    if h.waiting.None? then h
    else
      var w := h.waiting.value;
      var n := Min(rush, |w|);
      h.(sess := Wake(h.sess, w[..n]), waiting := if n == |w| then None else Some(w[n..]))
  }

  // ---- the steps ----

  datatype Move =
    | Arrive(s: nat)
    | Hit(s: nat, oc: nat)
    | Wait(s: nat)
    | Miss(s: nat, oc: nat)
    | HitDeref(s: nat)
    | Fill(s: nat)
    | Unbusy(s: nat)
    | Drop(s: nat)
    | Release(s: nat)
    | RefExtra(oc: nat)
    | ReleaseExtra(oc: nat)
    | HeadDeref(s: nat)
    | HeadDerefExtra

  predicate AtLookup(h: Head, s: nat) { s in h.sess && (h.sess[s].Looking? || h.sess[s].Woken?) }

  /** What can happen next. A lookup takes an object that is not busy, or waits if it saw a busy one, or
      goes to fetch one itself; which, depends on Vary, age, bans and flags. */
  predicate Enabled(h: Head, m: Move) {
    match m
    case Arrive(s) => s !in h.sess && h.refcnt > 0
    case Hit(s, oc) => AtLookup(h, s) && oc in h.objcs && !h.objcs[oc].busy
    case Wait(s) => AtLookup(h, s) && exists oc :: oc in h.objcs && h.objcs[oc].busy
    case Miss(s, oc) => AtLookup(h, s) && oc !in h.objcs && oc !in h.extras && NotHeld(h, oc)
    case HitDeref(s) => s in h.sess && h.sess[s].HitUnref?
    case Fill(s) => s in h.sess && h.sess[s].Fetching?
    case Unbusy(s) => s in h.sess && (h.sess[s].Fetching? || h.sess[s].Filled?)
    case Drop(s) => s in h.sess && h.sess[s].Fetching?
    case Release(s) => s in h.sess && h.sess[s].Holding?
    case RefExtra(oc) => oc in h.objcs && !h.objcs[oc].busy
    case ReleaseExtra(oc) => oc in h.extras
    case HeadDeref(s) => s in h.sess && h.sess[s].Releasing?
    case HeadDerefExtra => h.dying > 0
  }

  predicate NotHeld(h: Head, oc: nat) {
    forall s :: s in h.sess ==> !RefsOc(h.sess[s], oc)
  }

  /** HSH_Deref's lock region on `oc`: with the last reference it leaves the list; waiters are rushed. */
  function DerefOc(h: Head, oc: nat, rush: nat): Head
    requires oc in h.objcs && h.objcs[oc].refcnt > 0
  {
    var c := h.objcs[oc];
    Rush(if c.refcnt == 1 then h.(objcs := h.objcs - {oc}) else PutOc(h, oc, c.(refcnt := c.refcnt - 1)), rush)
  }

  /** The assertions of the code in the step: counts that are lowered or relied on are positive, dropped
      busy objects have no other reference, and a head that goes is empty. */
  predicate Safe(h: Head, m: Move) {
    match m
    case Arrive(_) => true
    case Hit(s, oc) => AtLookup(h, s) && oc in h.objcs && h.refcnt > 1
    case Wait(s) => AtLookup(h, s) && h.refcnt > 1
    case Miss(s, _) => AtLookup(h, s) && h.refcnt > 0
    case HitDeref(s) => h.refcnt > 1
    case Fill(s) => s in h.sess && h.sess[s].Fetching? && h.sess[s].oc in h.objcs
    case Unbusy(s) =>
      && s in h.sess && (h.sess[s].Fetching? || h.sess[s].Filled?) && h.refcnt > 0
      && h.sess[s].oc in h.objcs && h.objcs[h.sess[s].oc].busy && h.objcs[h.sess[s].oc].refcnt > 0
    case Drop(s) =>
      && s in h.sess && h.sess[s].Fetching? && h.refcnt > 0
      && h.sess[s].oc in h.objcs && h.objcs[h.sess[s].oc].busy && h.objcs[h.sess[s].oc].refcnt == 1
    case Release(s) =>
      && s in h.sess && h.sess[s].Holding? && h.refcnt > 0
      && h.sess[s].oc in h.objcs && h.objcs[h.sess[s].oc].refcnt > 0
    case RefExtra(oc) => oc in h.objcs && h.objcs[oc].refcnt > 0
    case ReleaseExtra(oc) => oc in h.objcs && h.objcs[oc].refcnt > 0 && h.refcnt > 0
    case HeadDeref(s) => h.refcnt > 0 && (h.refcnt == 1 ==> h.objcs == map[] && h.waiting.None?)
    case HeadDerefExtra => h.refcnt > 0 && h.dying > 0 && (h.refcnt == 1 ==> h.objcs == map[] && h.waiting.None?)
  }

  function Step(h: Head, m: Move, rush: nat): Head
    requires Safe(h, m)
  {
    match m
    case Arrive(s) => Put(h.(refcnt := h.refcnt + 1), s, Looking)
    case Hit(s, oc) => Put(PutOc(h, oc, h.objcs[oc].(refcnt := h.objcs[oc].refcnt + 1)), s, HitUnref(oc))
    case Wait(s) =>
      Put(h.(waiting := Some(if h.waiting.Some? then h.waiting.value + [s] else [s])), s, Waiting)
    case Miss(s, oc) => Put(PutOc(h, oc, Oc(1, true)), s, Fetching(oc))
    case HitDeref(s) =>
      if s in h.sess && h.sess[s].HitUnref? then Put(h.(refcnt := h.refcnt - 1), s, Holding(h.sess[s].oc)) else h
    case Fill(s) =>
      var oc := h.sess[s].oc;
      Put(PutOc(h.(extras := h.extras + multiset{oc}), oc, h.objcs[oc].(refcnt := h.objcs[oc].refcnt + 1)),
          s, Filled(oc))
    case Unbusy(s) =>
      var oc := h.sess[s].oc;
      Rush(Put(PutOc(h, oc, h.objcs[oc].(busy := false)), s, Holding(oc)), rush)
    case Drop(s) => DerefOc(Put(h, s, Releasing), h.sess[s].oc, rush)
    case Release(s) =>
      var oc := h.sess[s].oc;
      DerefOc(if h.objcs[oc].refcnt == 1 then Put(h, s, Releasing) else h.(sess := h.sess - {s}), oc, rush)
    case RefExtra(oc) =>
      PutOc(h.(extras := h.extras + multiset{oc}), oc, h.objcs[oc].(refcnt := h.objcs[oc].refcnt + 1))
    case ReleaseExtra(oc) =>
      DerefOc(h.(extras := h.extras - multiset{oc}, dying := if h.objcs[oc].refcnt == 1 then h.dying + 1 else h.dying),
              oc, rush)
    case HeadDeref(s) => h.(refcnt := h.refcnt - 1, sess := h.sess - {s})
    case HeadDerefExtra => h.(refcnt := h.refcnt - 1, dying := h.dying - 1)
  }

  // ---- what every step keeps ----

  function HeadRefs(sess: map<nat, Sess>): set<nat> { set s | s in sess && RefsHead(sess[s]) }

  function OcRefs(sess: map<nat, Sess>, oc: nat): set<nat> { set s | s in sess && RefsOc(sess[s], oc) }

  /** The head's count: object cores, sessions looking up, waiting, woken or on the way out, and releases
      under way. */
  ghost predicate HeadCount(h: Head) {
    h.refcnt == |h.objcs| + |HeadRefs(h.sess)| + h.dying
  }

  ghost predicate OcCount(h: Head, oc: nat) {
    && (oc in h.objcs ==> h.objcs[oc].refcnt == |OcRefs(h.sess, oc)| + h.extras[oc] && h.objcs[oc].refcnt > 0)
    && (oc !in h.objcs ==> OcRefs(h.sess, oc) == {} && oc !in h.extras)
  }

  ghost predicate OcCounts(h: Head) {
    forall oc: nat {:trigger OcCount(h, oc)} :: OcCount(h, oc)
  }

  predicate Owns(sess: map<nat, Sess>, s: nat, oc: nat) {
    s in sess && (sess[s] == Fetching(oc) || sess[s] == Filled(oc))
  }

  /** Fetching sessions own a busy object core, alone until it is in the cache; busy ones have an owner. */
  ghost predicate Owned(h: Head, oc: nat)
    requires oc in h.objcs
  {
    && (h.objcs[oc].busy <==> exists s :: Owns(h.sess, s, oc))
    && (h.objcs[oc].busy ==> |OcRefs(h.sess, oc)| == 1)
    && (forall s :: s in h.sess && h.sess[s] == Fetching(oc) ==> oc !in h.extras)
  }

  ghost predicate AllOwned(h: Head) {
    forall oc :: oc in h.objcs ==> Owned(h, oc)
  }

  /** The waiting list holds each waiting session once, and is not empty. */
  ghost predicate Queue(h: Head) {
    var w := if h.waiting.Some? then h.waiting.value else [];
    && (h.waiting.Some? ==> w != [])
    && (forall i, j :: 0 <= i < j < |w| ==> w[i] != w[j])
    && (forall i :: 0 <= i < |w| ==> w[i] in h.sess && h.sess[w[i]].Waiting?)
    && (forall s :: s in h.sess && h.sess[s].Waiting? ==> s in w)
  }

  /** Someone will wake those who wait: a busy object core, a session already woken, or a session whose
      release of an object will. */
  ghost predicate Hope(h: Head) {
    || (exists oc :: oc in h.objcs && h.objcs[oc].busy)
    || (exists s :: s in h.sess && h.sess[s].Woken?)
    || (exists s :: s in h.sess && (h.sess[s].Holding? || h.sess[s].HitUnref?))
  }

  ghost predicate NoLostWakeup(h: Head) {
    h.waiting.Some? ==> Hope(h)
  }

  ghost predicate Inv(h: Head) {
    HeadCount(h) && OcCounts(h) && AllOwned(h) && Queue(h) && NoLostWakeup(h)
  }

  // ---- how the counts follow the sessions ----

  lemma {:induction false} WakeIs(sess: map<nat, Sess>, ss: seq<nat>)
    ensures forall s :: s in Wake(sess, ss) <==> s in sess || s in ss
    ensures forall s :: s in Wake(sess, ss) ==> Wake(sess, ss)[s] == if s in ss then Woken else sess[s]
  {
    if ss != [] {
      var init := ss[..|ss| - 1];
      assert ss == init + [ss[|ss| - 1]];
      WakeIs(sess, init);
    }
  }

  // ---- rushing ----

  /** Woken sessions keep the reference they queued with. */
  lemma RushRefs(h: Head, rush: nat)
    requires Queue(h)
    ensures HeadRefs(Rush(h, rush).sess) == HeadRefs(h.sess)
    ensures forall oc :: OcRefs(Rush(h, rush).sess, oc) == OcRefs(h.sess, oc)
  {
    if h.waiting.Some? {
      var w := h.waiting.value;
      var woken := w[..Min(rush, |w|)];
      WakeIs(h.sess, woken);
      WakeRefs(h.sess, Wake(h.sess, woken), woken);
    }
  }

  lemma WakeRefs(sess: map<nat, Sess>, sess': map<nat, Sess>, ss: seq<nat>)
    requires forall s :: s in ss ==> s in sess && sess[s].Waiting?
    requires forall s :: s in sess' <==> s in sess
    requires forall s :: s in sess' ==> sess'[s] == if s in ss then Woken else sess[s]
    ensures HeadRefs(sess') == HeadRefs(sess)
    ensures forall oc :: OcRefs(sess', oc) == OcRefs(sess, oc)
  {
    forall s ensures s in HeadRefs(sess') <==> s in HeadRefs(sess) {}
    forall oc ensures OcRefs(sess', oc) == OcRefs(sess, oc) {
      forall s ensures s in OcRefs(sess', oc) <==> s in OcRefs(sess, oc) {}
    }
  }

  lemma RushOwned(h: Head, rush: nat)
    requires Queue(h) && AllOwned(h)
    ensures AllOwned(Rush(h, rush))
  {
    RushRefs(h, rush);
    var h' := Rush(h, rush);
    if h.waiting.Some? { WakeIs(h.sess, h.waiting.value[..Min(rush, |h.waiting.value|)]); }
    forall oc | oc in h'.objcs ensures Owned(h', oc) {
      assert Owned(h, oc);
      forall s ensures Owns(h'.sess, s, oc) <==> Owns(h.sess, s, oc) {}
    }
  }

  lemma RushQueue(h: Head, rush: nat)
    requires Queue(h)
    ensures Queue(Rush(h, rush))
  {
    if h.waiting.Some? {
      var w := h.waiting.value;
      WakeIs(h.sess, w[..Min(rush, |w|)]);
    }
  }

  /** With a rush of at least one, rushing a waiting list wakes someone. */
  lemma RushWakes(h: Head, rush: nat)
    requires Queue(h) && rush >= 1
    ensures NoLostWakeup(Rush(h, rush))
  {
    if h.waiting.Some? {
      var w := h.waiting.value;
      WakeIs(h.sess, w[..Min(rush, |w|)]);
      assert w[0] in w[..Min(rush, |w|)];
      assert w[0] in Rush(h, rush).sess && Rush(h, rush).sess[w[0]].Woken?;
    }
  }

  lemma RushCounts(h: Head, rush: nat)
    requires Queue(h) && HeadCount(h) && OcCounts(h)
    ensures HeadCount(Rush(h, rush)) && OcCounts(Rush(h, rush))
  {
    RushRefs(h, rush);
    forall oc: nat ensures OcCount(Rush(h, rush), oc) { assert OcCount(h, oc); }
  }

  /** All of the invariant but the hope. */
  ghost predicate Core(h: Head) {
    HeadCount(h) && OcCounts(h) && AllOwned(h) && Queue(h)
  }

  lemma RushKeeps(h: Head, rush: nat)
    requires Core(h) && rush >= 1
    ensures Inv(Rush(h, rush))
  {
    hide HeadCount, OcCounts, AllOwned, Queue, NoLostWakeup;
    RushCounts(h, rush);
    RushOwned(h, rush);
    RushQueue(h, rush);
    RushWakes(h, rush);
  }

  // ---- the assertions of the code hold ----

  lemma HeadIsReferenced(h: Head, s: nat)
    requires HeadCount(h) && s in h.sess && RefsHead(h.sess[s])
    ensures h.refcnt > |h.objcs|
  {
    assert s in HeadRefs(h.sess);
  }

  lemma EmptyOcs(h: Head, oc: nat)
    requires oc in h.objcs
    ensures |h.objcs| > 0
  {
    assert oc in h.objcs.Keys;
  }

  lemma HeldOc(h: Head, s: nat, oc: nat)
    requires OcCounts(h) && s in h.sess && RefsOc(h.sess[s], oc)
    ensures oc in h.objcs && h.objcs[oc].refcnt > 0 && |h.objcs| > 0
  {
    assert OcCount(h, oc);
    assert s in OcRefs(h.sess, oc);
    EmptyOcs(h, oc);
  }

  /** A head about to go has no object cores and nobody waiting. */
  lemma LastReference(h: Head, s: Option<nat>)
    requires HeadCount(h) && Queue(h) && h.refcnt == 1
    requires if s.Some? then s.value in h.sess && h.sess[s.value].Releasing? else h.dying > 0
    ensures h.objcs == map[] && h.waiting.None?
  {
    var refs := HeadRefs(h.sess);
    if s.Some? { assert s.value in refs; }
    if h.waiting.Some? {
      var w := h.waiting.value[0];
      assert w in refs;
      if s.Some? { assert {w, s.value} <= refs; Two(refs, w, s.value); }
    }
    if oc :| oc in h.objcs { EmptyOcs(h, oc); }
  }

  lemma Two(refs: set<nat>, a: nat, b: nat)
    requires a in refs && b in refs && a != b
    ensures |refs| >= 2
  {
    assert |refs - {a}| == |refs| - 1 && b in refs - {a};
  }

  lemma SoleOwner(h: Head, s: nat, oc: nat)
    requires OcCounts(h) && AllOwned(h) && s in h.sess && h.sess[s] == Fetching(oc)
    ensures oc in h.objcs && h.objcs[oc].busy && h.objcs[oc].refcnt == 1 && OcRefs(h.sess, oc) == {s} && oc !in h.extras
  {
    HeldOc(h, s, oc);
    assert OcCount(h, oc) && Owned(h, oc) && Owns(h.sess, s, oc) && s in OcRefs(h.sess, oc);
    OnlyOne(OcRefs(h.sess, oc), s);
  }

  lemma OnlyOne(refs: set<nat>, a: nat)
    requires a in refs && |refs| == 1
    ensures refs == {a}
  {
    assert |refs - {a}| == 0;
  }

  lemma MovesAreSafe(h: Head, m: Move)
    requires Inv(h) && Enabled(h, m)
    ensures Safe(h, m)
  {
    match m
    case Arrive(_) =>
    case Hit(s, oc) => HeadIsReferenced(h, s); EmptyOcs(h, oc);
    case Wait(s) => HeadIsReferenced(h, s); var oc :| oc in h.objcs && h.objcs[oc].busy; EmptyOcs(h, oc);
    case Miss(s, _) => HeadIsReferenced(h, s);
    case HitDeref(s) => HeadIsReferenced(h, s); HeldOc(h, s, h.sess[s].oc);
    case Fill(s) => HeldOc(h, s, h.sess[s].oc);
    case Unbusy(s) => HeldOc(h, s, h.sess[s].oc); assert Owned(h, h.sess[s].oc) && Owns(h.sess, s, h.sess[s].oc);
    case Drop(s) => SoleOwner(h, s, h.sess[s].oc); EmptyOcs(h, h.sess[s].oc);
    case Release(s) => HeldOc(h, s, h.sess[s].oc);
    case RefExtra(oc) => assert OcCount(h, oc);
    case ReleaseExtra(oc) => assert OcCount(h, oc); EmptyOcs(h, oc);
    case HeadDeref(s) => HeadIsReferenced(h, s); if h.refcnt == 1 { LastReference(h, Some(s)); }
    case HeadDerefExtra => if h.refcnt == 1 { LastReference(h, None); }
  }

  // ---- every move keeps the invariant ----

  /** Only session `s` changes. */
  ghost predicate Others(h: Head, h': Head, s: nat) {
    && (forall p :: p != s ==> (p in h'.sess <==> p in h.sess))
    && (forall p :: p != s && p in h.sess ==> h'.sess[p] == h.sess[p])
  }

  function HeadRef(sess: map<nat, Sess>, s: nat): nat { if s in sess && RefsHead(sess[s]) then 1 else 0 }

  function OcRef(sess: map<nat, Sess>, s: nat, oc: nat): nat { if s in sess && RefsOc(sess[s], oc) then 1 else 0 }

  lemma RefsFollow(h: Head, h': Head, s: nat)
    requires Others(h, h', s)
    ensures |HeadRefs(h'.sess)| == |HeadRefs(h.sess)| + HeadRef(h'.sess, s) - HeadRef(h.sess, s)
  {
    var a := HeadRefs(h.sess) - {s};
    assert HeadRefs(h.sess) == if HeadRef(h.sess, s) == 1 then a + {s} else a;
    assert HeadRefs(h'.sess) == if HeadRef(h'.sess, s) == 1 then a + {s} else a;
  }

  lemma OcRefsFollow(h: Head, h': Head, s: nat, oc: nat)
    requires Others(h, h', s)
    ensures |OcRefs(h'.sess, oc)| == |OcRefs(h.sess, oc)| + OcRef(h'.sess, s, oc) - OcRef(h.sess, s, oc)
    ensures OcRef(h'.sess, s, oc) == OcRef(h.sess, s, oc) ==> OcRefs(h'.sess, oc) == OcRefs(h.sess, oc)
  {
    var a := OcRefs(h.sess, oc) - {s};
    assert OcRefs(h.sess, oc) == if OcRef(h.sess, s, oc) == 1 then a + {s} else a;
    assert OcRefs(h'.sess, oc) == if OcRef(h'.sess, s, oc) == 1 then a + {s} else a;
  }

  function RefCnt(objcs: map<nat, Oc>, oc: nat): nat { if oc in objcs then objcs[oc].refcnt else 0 }

  /** The count of `oc` changes with the references of session `s` and the extra ones, and it is on the
      list exactly if the count is positive. */
  ghost predicate Adjusted(h: Head, h': Head, s: nat, oc: nat) {
    && RefCnt(h'.objcs, oc) + OcRef(h.sess, s, oc) + h.extras[oc]
       == RefCnt(h.objcs, oc) + OcRef(h'.sess, s, oc) + h'.extras[oc]
    && (oc in h'.objcs ==> h'.objcs[oc].refcnt > 0)
  }

  lemma CountsFollow(h: Head, h': Head, s: nat)
    requires HeadCount(h) && OcCounts(h) && Others(h, h', s)
    requires h'.refcnt + |h.objcs| + HeadRef(h.sess, s) + h.dying
      == h.refcnt + |h'.objcs| + HeadRef(h'.sess, s) + h'.dying
    requires forall oc: nat {:trigger Adjusted(h, h', s, oc)} :: Adjusted(h, h', s, oc)
    ensures HeadCount(h') && OcCounts(h')
  {
    RefsFollow(h, h', s);
    forall oc: nat ensures OcCount(h', oc) {
      assert OcCount(h, oc) && Adjusted(h, h', s, oc);
      OcRefsFollow(h, h', s, oc);
    }
  }

  lemma Sizes(objcs: map<nat, Oc>, oc: nat, c: Oc)
    ensures |objcs[oc := c]| == if oc in objcs then |objcs| else |objcs| + 1
    ensures |objcs - {oc}| == if oc in objcs then |objcs| - 1 else |objcs|
  {
    assert objcs[oc := c].Keys == objcs.Keys + {oc};
    assert (objcs - {oc}).Keys == objcs.Keys - {oc};
    assert |objcs| == |objcs.Keys| && |objcs[oc := c]| == |objcs[oc := c].Keys|;
    assert |objcs - {oc}| == |(objcs - {oc}).Keys|;
  }

  /** A session that neither was nor is waiting leaves the queue as it is. */
  lemma QueueStays(h: Head, h': Head, s: nat)
    requires Queue(h) && h'.waiting == h.waiting && Others(h, h', s)
    requires s in h.sess ==> !h.sess[s].Waiting?
    requires s in h'.sess ==> !h'.sess[s].Waiting?
    ensures Queue(h')
  {
  }

  /** A session that neither was nor is the owner of `oc` leaves its ownership as it is. */
  lemma OwnedStays(h: Head, h': Head, s: nat, oc: nat)
    requires oc in h.objcs && Owned(h, oc) && oc in h'.objcs && h'.objcs[oc].busy == h.objcs[oc].busy
    requires Others(h, h', s) && !Owns(h.sess, s, oc) && !Owns(h'.sess, s, oc)
    requires h.objcs[oc].busy ==>
      OcRef(h'.sess, s, oc) == OcRef(h.sess, s, oc) && (oc in h'.extras ==> oc in h.extras)
    ensures Owned(h', oc)
  {
    OcRefsFollow(h, h', s, oc);
    if h.objcs[oc].busy {
      var p :| Owns(h.sess, p, oc);
      assert Owns(h'.sess, p, oc);
    }
    forall p | Owns(h'.sess, p, oc) ensures Owns(h.sess, p, oc) {}
    forall p | p in h'.sess && h'.sess[p] == Fetching(oc) ensures oc !in h'.extras {
      assert Owns(h'.sess, p, oc) && Owns(h.sess, p, oc);
    }
  }

  /** Sessions that come, go or change without owning busy object cores or holding busy ones. */
  lemma AllOwnedStays(h: Head, h': Head, s: nat)
    requires AllOwned(h) && h'.objcs.Keys <= h.objcs.Keys && Others(h, h', s)
    requires forall oc :: oc in h'.objcs ==> h'.objcs[oc].busy == h.objcs[oc].busy
    requires forall oc :: !Owns(h.sess, s, oc) && !Owns(h'.sess, s, oc)
    requires forall oc :: oc in h'.objcs && h'.objcs[oc].busy ==>
      OcRef(h'.sess, s, oc) == OcRef(h.sess, s, oc) && (oc in h'.extras ==> oc in h.extras)
    ensures AllOwned(h')
  {
    forall oc | oc in h'.objcs ensures Owned(h', oc) {
      assert Owned(h, oc);
      OwnedStays(h, h', s, oc);
    }
  }

  /** Hope does not go with a session that changes without having been woken or holding an object. */
  lemma HopeStays(h: Head, h': Head, s: nat)
    requires Hope(h) && Others(h, h', s)
    requires forall oc :: oc in h.objcs && h.objcs[oc].busy ==> oc in h'.objcs && h'.objcs[oc].busy
    requires s in h.sess && (h.sess[s].Woken? || h.sess[s].Holding? || h.sess[s].HitUnref?) ==>
      s in h'.sess && (h'.sess[s].Holding? || h'.sess[s].HitUnref?)
    ensures Hope(h')
  {
    if oc :| oc in h.objcs && h.objcs[oc].busy { assert h'.objcs[oc].busy; }
    else if p :| p in h.sess && h.sess[p].Woken? { assert p in h'.sess; }
    else {
      var p :| p in h.sess && (h.sess[p].Holding? || h.sess[p].HitUnref?);
      assert p in h'.sess;
    }
  }

  lemma ArriveKeeps(h: Head, s: nat)
    requires Inv(h) && Enabled(h, Arrive(s))
    ensures Inv(Put(h.(refcnt := h.refcnt + 1), s, Looking))
  {
    hide HeadCount, OcCounts, AllOwned, Queue, Hope;
    var h' := Put(h.(refcnt := h.refcnt + 1), s, Looking);
    forall oc: nat ensures Adjusted(h, h', s, oc) { Positive(h, oc); }
    CountsFollow(h, h', s);
    QueueStays(h, h', s);
    AllOwnedStays(h, h', s);
    if h.waiting.Some? { HopeStays(h, h', s); }
  }

  lemma Positive(h: Head, oc: nat)
    requires OcCounts(h)
    ensures oc in h.objcs ==> h.objcs[oc].refcnt > 0
  {
    assert OcCount(h, oc);
  }

  lemma HitKeeps(h: Head, s: nat, oc: nat)
    requires Inv(h) && Enabled(h, Hit(s, oc))
    ensures Inv(Put(PutOc(h, oc, h.objcs[oc].(refcnt := h.objcs[oc].refcnt + 1)), s, HitUnref(oc)))
  {
    hide HeadCount, OcCounts, AllOwned, Queue;
    var c := h.objcs[oc].(refcnt := h.objcs[oc].refcnt + 1);
    var h' := Put(PutOc(h, oc, c), s, HitUnref(oc));
    Sizes(h.objcs, oc, c);
    forall o: nat ensures Adjusted(h, h', s, o) { Positive(h, o); }
    CountsFollow(h, h', s);
    QueueStays(h, h', s);
    AllOwnedStays(h, h', s);
    assert s in h'.sess && h'.sess[s].HitUnref?;
  }

  lemma QueueGrows(h: Head, h': Head, s: nat)
    requires Queue(h) && Others(h, h', s) && AtLookup(h, s) && s in h'.sess && h'.sess[s].Waiting?
    requires h'.waiting == Some(if h.waiting.Some? then h.waiting.value + [s] else [s])
    ensures Queue(h')
  {
    var w := if h.waiting.Some? then h.waiting.value else [];
    var w' := h'.waiting.value;
    assert w' == w + [s] && s !in w;
    forall p | p in h'.sess && h'.sess[p].Waiting? ensures p in w' {
      if p == s { assert w'[|w|] == s; } else { assert p in w; }
    }
  }

  lemma WaitKeeps(h: Head, s: nat)
    requires Inv(h) && Enabled(h, Wait(s))
    ensures Inv(Put(h.(waiting := Some(if h.waiting.Some? then h.waiting.value + [s] else [s])), s, Waiting))
  {
    hide HeadCount, OcCounts, AllOwned, Queue;
    var h' := Put(h.(waiting := Some(if h.waiting.Some? then h.waiting.value + [s] else [s])), s, Waiting);
    forall o: nat ensures Adjusted(h, h', s, o) { Positive(h, o); }
    CountsFollow(h, h', s);
    QueueGrows(h, h', s);
    AllOwnedStays(h, h', s);
    var oc :| oc in h.objcs && h.objcs[oc].busy;
    assert oc in h'.objcs && h'.objcs[oc].busy;
  }

  /** The session becomes the only one with references to a busy object core. */
  lemma NewOwner(h': Head, s: nat, oc: nat)
    requires oc in h'.objcs && h'.objcs[oc].busy && Owns(h'.sess, s, oc) && OcRefs(h'.sess, oc) == {s}
    requires h'.sess[s].Fetching? ==> oc !in h'.extras
    ensures Owned(h', oc)
  {
    forall p | p in h'.sess && h'.sess[p] == Fetching(oc) ensures oc !in h'.extras {
      assert p in OcRefs(h'.sess, oc);
    }
  }

  lemma MissKeeps(h: Head, s: nat, oc: nat)
    requires Inv(h) && Enabled(h, Miss(s, oc))
    ensures Inv(Put(PutOc(h, oc, Oc(1, true)), s, Fetching(oc)))
  {
    hide HeadCount, OcCounts, AllOwned, Queue, Hope, NotHeld;
    var h' := Put(PutOc(h, oc, Oc(1, true)), s, Fetching(oc));
    MissAdjusted(h, h', s, oc);
    CountsFollow(h, h', s);
    QueueStays(h, h', s);
    MissOwned(h, h', s, oc);
    BusyHope(h', oc);
  }

  lemma MissAdjusted(h: Head, h': Head, s: nat, oc: nat)
    requires OcCounts(h) && AtLookup(h, s) && oc !in h.objcs && oc !in h.extras
    requires h' == Put(PutOc(h, oc, Oc(1, true)), s, Fetching(oc))
    ensures |h'.objcs| == |h.objcs| + 1
    ensures forall o: nat {:trigger Adjusted(h, h', s, o)} :: Adjusted(h, h', s, o)
  {
    hide OcCounts;
    Sizes(h.objcs, oc, Oc(1, true));
    forall o: nat ensures Adjusted(h, h', s, o) { Positive(h, o); }
  }

  lemma BusyHope(h: Head, oc: nat)
    requires oc in h.objcs && h.objcs[oc].busy
    ensures Hope(h)
  {
  }

  lemma MissOwned(h: Head, h': Head, s: nat, oc: nat)
    requires AllOwned(h) && Enabled(h, Miss(s, oc)) && h' == Put(PutOc(h, oc, Oc(1, true)), s, Fetching(oc))
    ensures AllOwned(h')
  {
    forall o | o in h'.objcs ensures Owned(h', o) {
      if o == oc {
        assert OcRefs(h'.sess, oc) == {s};
        NewOwner(h', s, oc);
      } else {
        assert Owned(h, o);
        OwnedStays(h, h', s, o);
      }
    }
  }

  lemma HitDerefKeeps(h: Head, s: nat)
    requires Inv(h) && Enabled(h, HitDeref(s)) && h.refcnt > 0
    ensures Inv(Put(h.(refcnt := h.refcnt - 1), s, Holding(h.sess[s].oc)))
  {
    hide HeadCount, OcCounts, AllOwned, Queue;
    var h' := Put(h.(refcnt := h.refcnt - 1), s, Holding(h.sess[s].oc));
    forall o: nat ensures Adjusted(h, h', s, o) { Positive(h, o); }
    CountsFollow(h, h', s);
    QueueStays(h, h', s);
    AllOwnedStays(h, h', s);
    assert s in h'.sess && h'.sess[s].Holding?;
  }

  /** The owner of a busy object core is the only session with references to it. */
  lemma OwnerAlone(h: Head, s: nat, oc: nat)
    requires OcCounts(h) && AllOwned(h) && Owns(h.sess, s, oc)
    ensures oc in h.objcs && h.objcs[oc].busy && OcRefs(h.sess, oc) == {s}
    ensures h.sess[s].Fetching? ==> oc !in h.extras
  {
    HeldOc(h, s, oc);
    assert Owned(h, oc);
    assert s in OcRefs(h.sess, oc);
    OnlyOne(OcRefs(h.sess, oc), s);
  }

  lemma FillKeeps(h: Head, s: nat)
    requires Inv(h) && Enabled(h, Fill(s)) && Safe(h, Fill(s))
    ensures Inv(Step(h, Fill(s), 1))
  {
    hide HeadCount, OcCounts, AllOwned, Queue, Hope;
    var oc := h.sess[s].oc;
    var c := h.objcs[oc].(refcnt := h.objcs[oc].refcnt + 1);
    var h' := Put(PutOc(h.(extras := h.extras + multiset{oc}), oc, c), s, Filled(oc));
    Sizes(h.objcs, oc, c);
    forall o: nat ensures Adjusted(h, h', s, o) { Positive(h, o); }
    CountsFollow(h, h', s);
    QueueStays(h, h', s);
    OwnerAlone(h, s, oc);
    FillOwned(h, h', s, oc);
    if h.waiting.Some? { HopeStays(h, h', s); }
  }

  lemma FillOwned(h: Head, h': Head, s: nat, oc: nat)
    requires AllOwned(h) && Others(h, h', s) && OcRefs(h.sess, oc) == {s} && oc in h.objcs && h.objcs[oc].busy
    requires s in h.sess && h.sess[s] == Fetching(oc) && s in h'.sess && h'.sess[s] == Filled(oc)
    requires h'.objcs == h.objcs[oc := h.objcs[oc].(refcnt := h.objcs[oc].refcnt + 1)]
    requires h'.extras == h.extras + multiset{oc}
    ensures AllOwned(h')
  {
    forall o | o in h'.objcs ensures Owned(h', o) {
      assert Owned(h, o);
      if o == oc {
        OcRefsFollow(h, h', s, oc);
        NewOwner(h', s, oc);
      } else {
        OwnedStays(h, h', s, o);
      }
    }
  }

  lemma UnbusyKeeps(h: Head, s: nat, rush: nat)
    requires Inv(h) && Enabled(h, Unbusy(s)) && Safe(h, Unbusy(s)) && rush >= 1
    ensures Inv(Step(h, Unbusy(s), rush))
  {
    hide HeadCount, OcCounts, AllOwned, Queue, Hope;
    var oc := h.sess[s].oc;
    var c := h.objcs[oc].(busy := false);
    var h' := Put(PutOc(h, oc, c), s, Holding(oc));
    Sizes(h.objcs, oc, c);
    forall o: nat ensures Adjusted(h, h', s, o) { Positive(h, o); }
    CountsFollow(h, h', s);
    QueueStays(h, h', s);
    OwnerAlone(h, s, oc);
    UnbusyOwned(h, h', s, oc);
    RushKeeps(h', rush);
  }

  lemma UnbusyOwned(h: Head, h': Head, s: nat, oc: nat)
    requires AllOwned(h) && Others(h, h', s) && OcRefs(h.sess, oc) == {s} && oc in h.objcs
    requires Owns(h.sess, s, oc) && s in h'.sess && h'.sess[s] == Holding(oc)
    requires h'.objcs == h.objcs[oc := h.objcs[oc].(busy := false)] && h'.extras == h.extras
    ensures AllOwned(h')
  {
    forall o | o in h'.objcs ensures Owned(h', o) {
      assert Owned(h, o);
      if o == oc {
        forall p ensures !Owns(h'.sess, p, oc) { assert p in OcRefs(h.sess, oc) <==> p == s; }
        forall p | p in h'.sess ensures h'.sess[p] != Fetching(oc) { assert !Owns(h'.sess, p, oc); }
      } else {
        OwnedStays(h, h', s, o);
      }
    }
  }

  /** Rushing comes after the lock region's own changes. */
  function Unrushed(h: Head, oc: nat): Head
    requires oc in h.objcs && h.objcs[oc].refcnt > 0
  {
    var c := h.objcs[oc];
    if c.refcnt == 1 then h.(objcs := h.objcs - {oc}) else PutOc(h, oc, c.(refcnt := c.refcnt - 1))
  }

  lemma DropKeeps(h: Head, s: nat, rush: nat)
    requires Inv(h) && Enabled(h, Drop(s)) && Safe(h, Drop(s)) && rush >= 1
    ensures Inv(Step(h, Drop(s), rush))
  {
    hide HeadCount, OcCounts, AllOwned, Queue, Hope;
    var oc := h.sess[s].oc;
    var h' := Unrushed(Put(h, s, Releasing), oc);
    Sizes(h.objcs, oc, h.objcs[oc]);
    OwnerAlone(h, s, oc);
    forall o: nat ensures Adjusted(h, h', s, o) { Positive(h, o); }
    CountsFollow(h, h', s);
    QueueStays(h, h', s);
    DropOwned(h, h', s, oc);
    RushKeeps(h', rush);
  }

  lemma DropOwned(h: Head, h': Head, s: nat, oc: nat)
    requires AllOwned(h) && Others(h, h', s) && s in h'.sess && h'.sess[s] == Releasing && h'.extras == h.extras
    requires s in h.sess && h.sess[s] == Fetching(oc) && h'.objcs == h.objcs - {oc}
    ensures AllOwned(h')
  {
    forall o | o in h'.objcs ensures Owned(h', o) {
      assert Owned(h, o);
      OwnedStays(h, h', s, o);
    }
  }

  /** What one release does before rushing, for a session or an extra reference. */
  lemma ReleaseKeeps(h: Head, s: nat, rush: nat)
    requires Inv(h) && Enabled(h, Release(s)) && Safe(h, Release(s)) && rush >= 1
    ensures Inv(Step(h, Release(s), rush))
  {
    hide HeadCount, OcCounts, AllOwned, Queue, Hope;
    var oc := h.sess[s].oc;
    var c := h.objcs[oc];
    var h1 := if c.refcnt == 1 then Put(h, s, Releasing) else h.(sess := h.sess - {s});
    var h' := Unrushed(h1, oc);
    Sizes(h.objcs, oc, c.(refcnt := if c.refcnt == 1 then 1 else c.refcnt - 1));
    NotBusy(h, s, oc);
    forall o: nat ensures Adjusted(h, h', s, o) { Positive(h, o); }
    CountsFollow(h, h', s);
    QueueStays(h, h', s);
    AllOwnedStays(h, h', s);
    RushKeeps(h', rush);
  }

  /** Whoever holds an object core without owning it holds one that is not busy. */
  lemma NotBusy(h: Head, s: nat, oc: nat)
    requires OcCounts(h) && AllOwned(h) && s in h.sess && RefsOc(h.sess[s], oc) && !Owns(h.sess, s, oc)
    ensures oc in h.objcs && !h.objcs[oc].busy
  {
    HeldOc(h, s, oc);
    assert Owned(h, oc);
    if h.objcs[oc].busy {
      var p :| Owns(h.sess, p, oc);
      Two(OcRefs(h.sess, oc), s, p);
    }
  }

  lemma RefExtraKeeps(h: Head, oc: nat)
    requires Inv(h) && Enabled(h, RefExtra(oc)) && Safe(h, RefExtra(oc))
    ensures Inv(Step(h, RefExtra(oc), 1))
  {
    hide HeadCount, OcCounts, AllOwned, Queue, Hope;
    var c := h.objcs[oc].(refcnt := h.objcs[oc].refcnt + 1);
    var h' := PutOc(h.(extras := h.extras + multiset{oc}), oc, c);
    Sizes(h.objcs, oc, c);
    var s := Nobody(h);
    forall o: nat ensures Adjusted(h, h', s, o) { Positive(h, o); }
    CountsFollow(h, h', s);
    QueueStays(h, h', s);
    AllOwnedStays(h, h', s);
    if h.waiting.Some? { HopeStays(h, h', s); }
  }

  /** A session that does not exist, for steps that concern none. */
  lemma Nobody(h: Head) returns (s: nat)
    ensures s !in h.sess
  {
    s := Above(h.sess.Keys);
  }

  lemma Above(ss: set<nat>) returns (n: nat)
    ensures forall s :: s in ss ==> s < n
    decreases |ss|
  {
    if ss == {} { return 0; }
    var s :| s in ss;
    var m := Above(ss - {s});
    n := if m > s then m else s + 1;
    forall p | p in ss ensures p < n { assert p == s || p in ss - {s}; }
  }

  lemma ReleaseExtraKeeps(h: Head, oc: nat, rush: nat)
    requires Inv(h) && Enabled(h, ReleaseExtra(oc)) && Safe(h, ReleaseExtra(oc)) && rush >= 1
    ensures Inv(Step(h, ReleaseExtra(oc), rush))
  {
    hide HeadCount, OcCounts, AllOwned, Queue, Hope;
    var h' := ReleasedExtra(h, oc);
    var s := Nobody(h);
    ExtraAdjusted(h, oc, s);
    ExtraQueueOwned(h, oc, s);
    hide Adjusted, ReleasedExtra;
    CountsFollow(h, h', s);
    hide Inv;
    RushKeeps(h', rush);
    ExtraStep(h, oc, rush);
  }

  lemma ExtraStep(h: Head, oc: nat, rush: nat)
    requires Safe(h, ReleaseExtra(oc))
    ensures Step(h, ReleaseExtra(oc), rush) == Rush(ReleasedExtra(h, oc), rush)
  {
    hide Rush;
  }

  lemma ExtraQueueOwned(h: Head, oc: nat, s: nat)
    requires Queue(h) && AllOwned(h) && oc in h.objcs && h.objcs[oc].refcnt > 0 && s !in h.sess
    ensures Queue(ReleasedExtra(h, oc)) && AllOwned(ReleasedExtra(h, oc)) && Others(h, ReleasedExtra(h, oc), s)
  {
    hide Queue, AllOwned;
    QueueStays(h, ReleasedExtra(h, oc), s);
    AllOwnedStays(h, ReleasedExtra(h, oc), s);
  }

  /** The lock region of a release of an extra reference, before rushing. */
  function ReleasedExtra(h: Head, oc: nat): Head
    requires oc in h.objcs && h.objcs[oc].refcnt > 0
  {
    Unrushed(h.(extras := h.extras - multiset{oc},
                dying := if h.objcs[oc].refcnt == 1 then h.dying + 1 else h.dying), oc)
  }

  lemma ExtraAdjusted(h: Head, oc: nat, s: nat)
    requires OcCounts(h) && oc in h.objcs && oc in h.extras && s !in h.sess
    requires h.objcs[oc].refcnt > 0
    ensures var h' := ReleasedExtra(h, oc);
      && (forall o: nat {:trigger Adjusted(h, h', s, o)} :: Adjusted(h, h', s, o))
      && |h'.objcs| + h'.dying == |h.objcs| + h.dying && h'.refcnt == h.refcnt && h'.sess == h.sess
  {
    hide OcCounts;
    var c := h.objcs[oc];
    Sizes(h.objcs, oc, c.(refcnt := if c.refcnt <= 1 then 1 else c.refcnt - 1));
    forall o: nat ensures o in h.objcs ==> h.objcs[o].refcnt > 0 { Positive(h, o); }
  }

  lemma HeadDerefKeeps(h: Head, m: Move)
    requires Inv(h) && Enabled(h, m) && Safe(h, m) && (m.HeadDeref? || m.HeadDerefExtra?)
    ensures Inv(Step(h, m, 1))
  {
    hide HeadCount, OcCounts, AllOwned, Queue, Hope;
    var h' := Step(h, m, 1);
    var s := Nobody(h);
    if m.HeadDeref? { s := m.s; }
    forall o: nat ensures Adjusted(h, h', s, o) { Positive(h, o); }
    CountsFollow(h, h', s);
    QueueStays(h, h', s);
    AllOwnedStays(h, h', s);
    if h.waiting.Some? { HopeStays(h, h', s); }
  }

  lemma StepKeepsInv(h: Head, m: Move, rush: nat)
    requires Inv(h) && Enabled(h, m) && Safe(h, m) && rush >= 1
    ensures Inv(Step(h, m, rush))
  {
    hide Inv, Rush, DerefOc;
    match m
    case Arrive(s) => ArriveKeeps(h, s);
    case Hit(s, oc) => HitKeeps(h, s, oc);
    case Wait(s) => WaitKeeps(h, s);
    case Miss(s, oc) => MissKeeps(h, s, oc);
    case HitDeref(s) => HitDerefKeeps(h, s);
    case Fill(s) => FillKeeps(h, s);
    case Unbusy(s) => UnbusyKeeps(h, s, rush);
    case Drop(s) => DropKeeps(h, s, rush);
    case Release(s) => ReleaseKeeps(h, s, rush);
    case RefExtra(oc) => RefExtraKeeps(h, oc);
    case ReleaseExtra(oc) => ReleaseExtraKeeps(h, oc, rush);
    case HeadDeref(_) => HeadDerefKeeps(h, m);
    case HeadDerefExtra => HeadDerefKeeps(h, m);
  }
}
