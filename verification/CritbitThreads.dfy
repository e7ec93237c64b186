/** Threads that look heads up without the lock, against threads that insert and delete under it. */
module CritbitThreads {
  import opened Wrappers
  import opened DigestBits
  import opened CritbitTree
  import opened CritbitMemory
  import opened Critbit
  import HeadIndex

  /** Where a thread is in hcb_lookup or hcb_deref. `noh` is the worker's spare head, already carrying
      the wanted digest `d`. */
  datatype Thread =
    | Idle
      // reading the tree without the lock: `pp` is the word last read
    | Walking(noh: nat, d: Digest, pp: Link, hops: nat)
      // about to try again with the lock held
    | Locking(noh: nat, d: Digest)
      // a head with the digest was found, its count is still to be looked at
    | Got(noh: nat, d: Digest, oh: nat)
      // owns a reference
    | Holding(oh: nat)
      // dropped the last reference, has not unlinked the head yet, and still holds the head's lock
    | Dropped(oh: nat)

  datatype State = State(m: Mem, refcnt: map<nat, nat>, thr: map<nat, Thread>)

  /** What a step does as seen by the users of the index. */
  datatype Event =
    | Internal
    | Lookup(d: Digest, noh: nat, oh: nat)
    | Deref(d: Digest)

  ghost predicate HasSpare(t: Thread) { t.Walking? || t.Locking? || t.Got? }

  // ---- steps ----

  ghost predicate Init(s: State) {
    s.m == Mem(Null, map[], map[]) && s.refcnt == map[] && forall t :: t in s.thr ==> s.thr[t] == Idle
  }

  ghost predicate Become(s: State, s': State, t: nat, th: Thread) {
    s'.thr == s.thr[t := th]
  }

  /** The head a worker brings is private to it: nobody else has it and the tree never did. */
  ghost predicate Spare(s: State, t: nat, noh: nat) {
    noh !in s.m.head
    && forall u :: u in s.thr && u != t && HasSpare(s.thr[u]) ==> s.thr[u].noh != noh
  }

  /** Enter hcb_lookup and read the root word. */
  ghost predicate Start(s: State, s': State, t: nat, noh: nat, d: Digest)
    requires t in s.thr
  {
    && s.thr[t] == Idle && Spare(s, t, noh)
    && s'.m == s.m && s'.refcnt == s.refcnt
    && Become(s, s', t, if s.m.origo.Null? then Locking(noh, d) else Walking(noh, d, s.m.origo, 0))
  }

  /** Where a reader is after it reads one more word, or looks at the head it reached. */
  function AfterRead(m: Mem, w: Thread): Thread
    requires w.Walking?
    requires match w.pp
      case Null => true
      case ToY(y) => y in m.ys && m.ys[y].ptr < DIGEST_LEN
      case ToNode(oh) => oh in m.head
  {
    match w.pp
    case Null => Locking(w.noh, w.d)
    case ToY(y) => w.(pp := m.ys[y].Leaf(Direction(m.ys[y], w.d)), hops := w.hops + 1)
    case ToNode(oh) => if m.head[oh] == w.d then Got(w.noh, w.d, oh) else Locking(w.noh, w.d)
  }

  ghost predicate Walk(s: State, s': State, t: nat)
    requires t in s.thr
  {
    && s.thr[t].Walking? && AfterRead.requires(s.m, s.thr[t])
    && s'.m == s.m && s'.refcnt == s.refcnt
    && Become(s, s', t, AfterRead(s.m, s.thr[t]))
  }

  /** hcb_insert with the lock held finds a head with the digest. */
  ghost predicate LockedFind(s: State, s': State, t: nat)
    requires t in s.thr
  {
    && s.thr[t].Locking? && Valid(s.m)
    && s'.m == s.m && s'.refcnt == s.refcnt
    && var w := s.thr[t];
      Bits(w.d) in Index(s.m) && Become(s, s', t, Got(w.noh, w.d, Index(s.m)[Bits(w.d)]))
  }

  /** hcb_insert with the lock held links the spare head, whose count is 1. */
  ghost predicate LockedInsert(s: State, s': State, t: nat, y2: nat)
    requires t in s.thr
  {
    && s.thr[t].Locking? && Valid(s.m) && y2 !in s.m.ys
    && var w := s.thr[t];
      && Bits(w.d) !in Index(s.m)
      && s'.m == AfterInsert(s.m, w.d, w.noh, y2)
      && s'.refcnt == s.refcnt[w.noh := 1]
      && Become(s, s', t, Holding(w.noh))
  }

  /** The lock of a head is held across steps only from the drop of its last reference until it is
      unlinked. */
  ghost predicate LockFree(s: State, oh: nat) { Droppers(s, oh) == {} }

  /** Look at the count of the head found, with the head locked: take a reference, or start over with
      the lock of the tree. */
  ghost predicate Acquire(s: State, s': State, t: nat)
    requires t in s.thr
  {
    && s.thr[t].Got?
    && s'.m == s.m
    && var w := s.thr[t];
      && w.oh in s.refcnt && LockFree(s, w.oh)
      && if s.refcnt[w.oh] > 0 then
          s'.refcnt == s.refcnt[w.oh := s.refcnt[w.oh] + 1] && Become(s, s', t, Holding(w.oh))
        else
          s'.refcnt == s.refcnt && Become(s, s', t, Locking(w.noh, w.d))
  }

  /** hcb_deref: lock the head and drop a reference; after the last one the head is still linked and
      stays locked. */
  ghost predicate Drop(s: State, s': State, t: nat)
    requires t in s.thr
  {
    && s.thr[t].Holding?
    && s'.m == s.m
    && var oh := s.thr[t].oh;
      && oh in s.refcnt && s.refcnt[oh] > 0 && LockFree(s, oh)
      && s'.refcnt == s.refcnt[oh := s.refcnt[oh] - 1]
      && Become(s, s', t, if s.refcnt[oh] == 1 then Dropped(oh) else Idle)
  }

  /** hcb_deref, continued: unlink the head under the lock. */
  ghost predicate Unlink(s: State, s': State, t: nat)
    requires t in s.thr
  {
    && s.thr[t].Dropped? && Valid(s.m) && !s.m.origo.Null?
    && var oh := s.thr[t].oh;
      && oh in s.m.head
      && s'.m == AfterDelete(s.m, s.m.head[oh]).0 && s'.refcnt == s.refcnt
      && Become(s, s', t, Idle)
  }

  datatype Move =
    | DoStart(noh: nat, d: Digest)
    | DoWalk
    | DoLockedFind
    | DoLockedInsert(y2: nat)
    | DoAcquire
    | DoDrop
    | DoUnlink

  /** Thread `t` makes move `mv`. */
  ghost predicate Step(s: State, s': State, t: nat, mv: Move) {
    && t in s.thr
    && match mv
      case DoStart(noh, d) => Start(s, s', t, noh, d)
      case DoWalk => Walk(s, s', t)
      case DoLockedFind => LockedFind(s, s', t)
      case DoLockedInsert(y2) => LockedInsert(s, s', t, y2)
      case DoAcquire => Acquire(s, s', t)
      case DoDrop => Drop(s, s', t)
      case DoUnlink => Unlink(s, s', t)
  }

  /** The operation of the index that takes effect with the move, if any. */
  ghost function EventOf(s: State, t: nat, mv: Move): Event
    requires t in s.thr
  {
    var w := s.thr[t];
    match mv
    case DoLockedInsert(_) => if w.Locking? then Lookup(w.d, w.noh, w.noh) else Internal
    case DoAcquire =>
      if w.Got? && w.oh in s.refcnt && s.refcnt[w.oh] > 0 then Lookup(w.d, w.noh, w.oh) else Internal
    case DoDrop => if w.Holding? && w.oh in s.m.head then Deref(s.m.head[w.oh]) else Internal
    case _ => Internal
  }

  // ---- invariant ----

  /** The threads that are exactly at `x`. */
  ghost function At(s: State, x: Thread): set<nat> {
    set t | t in s.thr && s.thr[t] == x
  }

  ghost function Holders(s: State, oh: nat): set<nat> { At(s, Holding(oh)) }

  ghost function Droppers(s: State, oh: nat): set<nat> { At(s, Dropped(oh)) }

  ghost predicate Linked(m: Mem, oh: nat)
    requires Valid(m)
  {
    oh in m.head && Bits(m.head[oh]) in Index(m) && Index(m)[Bits(m.head[oh])] == oh
  }

  /** Each word a reader still follows is a published, non-null link, and its hops are paid for by the
      critical bits passed. */
  ghost predicate ThreadOK(s: State, t: nat)
    requires t in s.thr && Valid(s.m)
  {
    var w := s.thr[t];
    && (HasSpare(w) ==> w.noh !in s.m.head)
    && (w.Walking? ==> LinkOK(s.m, w.pp, -1) && w.hops <= Rank(s.m, w.pp))
    && (w.Got? ==> w.oh in s.m.head && s.m.head[w.oh] == w.d)
    && (w.Holding? ==> w.oh in s.m.head)
    && (w.Dropped? ==> w.oh in s.m.head && w.oh in s.refcnt && s.refcnt[w.oh] == 0)
  }

  ghost predicate SparesDiffer(s: State) {
    forall t, u :: t in s.thr && u in s.thr && t != u && HasSpare(s.thr[t]) && HasSpare(s.thr[u])
      ==> s.thr[t].noh != s.thr[u].noh
  }

  /** The count of a published head is the number of references owned, it is linked while counted, and
      a head with count zero is linked exactly until its last holder unlinks it. */
  ghost predicate HeadOK(s: State, oh: nat)
    requires Valid(s.m) && oh in s.refcnt
  {
    && s.refcnt[oh] == |Holders(s, oh)|
    && (s.refcnt[oh] > 0 ==> Linked(s.m, oh))
    && (s.refcnt[oh] == 0 ==> |Droppers(s, oh)| == if Linked(s.m, oh) then 1 else 0)
  }

  ghost predicate ThreadsOK(s: State)
    requires Valid(s.m)
  {
    SparesDiffer(s) && forall t {:trigger ThreadOK(s, t)} :: t in s.thr ==> ThreadOK(s, t)
  }

  ghost predicate HeadsOK(s: State)
    requires Valid(s.m)
  {
    s.refcnt.Keys == s.m.head.Keys && forall oh {:trigger HeadOK(s, oh)} :: oh in s.refcnt ==> HeadOK(s, oh)
  }

  ghost predicate Inv(s: State) {
    Valid(s.m) && ThreadsOK(s) && HeadsOK(s)
  }

  // ---- every step keeps the invariant ----

  /** `m'` still has everything a reader of `m` may come across. */
  ghost predicate Grows(m: Mem, m': Mem) {
    && Valid(m) && Valid(m')
    && (forall oh :: oh in m.head ==> oh in m'.head && m'.head[oh] == m.head[oh])
    && (forall y :: y in m.ys ==> y in m'.ys && m'.ys[y].critbit == m.ys[y].critbit)
  }

  lemma LinkSurvives(m: Mem, m': Mem, l: Link)
    requires Grows(m, m') && LinkOK(m, l, -1)
    ensures LinkOK(m', l, -1) && Rank(m', l) == Rank(m, l)
  {
    if l.ToY? { assert NodeOK(m, m.ys[l.y]) && NodeOK(m', m'.ys[l.y]); }
  }

  lemma AtAfter(s: State, s': State, t: nat, th: Thread, x: Thread)
    requires t in s.thr && Become(s, s', t, th)
    ensures |At(s', x)| == |At(s, x)| - (if s.thr[t] == x then 1 else 0) + (if th == x then 1 else 0)
  {
    var rest := At(s, x) - {t};
    if s.thr[t] == x { assert At(s, x) == rest + {t}; } else { assert At(s, x) == rest; }
    if th == x { assert At(s', x) == rest + {t}; } else { assert At(s', x) == rest; }
  }

  lemma HoldersAfter(s: State, s': State, t: nat, th: Thread, oh: nat)
    requires t in s.thr && Become(s, s', t, th)
    ensures |Holders(s', oh)| == |Holders(s, oh)|
      - (if s.thr[t] == Holding(oh) then 1 else 0) + (if th == Holding(oh) then 1 else 0)
    ensures |Droppers(s', oh)| == |Droppers(s, oh)|
      - (if s.thr[t] == Dropped(oh) then 1 else 0) + (if th == Dropped(oh) then 1 else 0)
  {
    AtAfter(s, s', t, th, Holding(oh));
    AtAfter(s, s', t, th, Dropped(oh));
  }

  lemma StillDiffer(s: State, s': State, t: nat, th: Thread)
    requires SparesDiffer(s) && t in s.thr && Become(s, s', t, th)
    requires HasSpare(th) ==> Spare(s, t, th.noh)
    ensures SparesDiffer(s')
  {
  }

  /** A thread other than the one that moved keeps what it knows, when the memory only grew, no spare
      head of another thread was published, and counts of dropped heads stayed zero. */
  lemma OtherThread(s: State, s': State, t: nat, u: nat, th: Thread)
    requires t in s.thr && u in s.thr && u != t && Become(s, s', t, th)
    requires Grows(s.m, s'.m) && ThreadOK(s, u)
    requires HasSpare(s.thr[u]) ==> s.thr[u].noh !in s'.m.head
    requires s.thr[u].Dropped? ==>
      s.thr[u].oh in s'.refcnt && s'.refcnt[s.thr[u].oh] == s.refcnt[s.thr[u].oh]
    ensures ThreadOK(s', u)
  {
    if s.thr[u].Walking? { LinkSurvives(s.m, s'.m, s.thr[u].pp); }
  }

  lemma OtherThreads(s: State, s': State, t: nat, th: Thread)
    requires Inv(s) && t in s.thr && Become(s, s', t, th) && Grows(s.m, s'.m)
    requires forall u :: u in s.thr && u != t && HasSpare(s.thr[u]) ==> s.thr[u].noh !in s'.m.head
    requires HasSpare(th) ==> Spare(s, t, th.noh)
    requires forall oh :: oh in s.refcnt && s.refcnt[oh] == 0 ==> oh in s'.refcnt && s'.refcnt[oh] == 0
    requires ThreadOK(s', t)
    ensures ThreadsOK(s')
  {
    StillDiffer(s, s', t, th);
    forall u | u in s'.thr && u != t ensures ThreadOK(s', u) {
      assert ThreadOK(s, u);
      OtherThread(s, s', t, u, th);
    }
  }

  /** Spare heads have not been published. */
  lemma SparesArePrivate(s: State)
    requires Inv(s)
    ensures forall u :: u in s.thr && HasSpare(s.thr[u]) ==> s.thr[u].noh !in s.m.head
  {
    forall u | u in s.thr && HasSpare(s.thr[u]) ensures s.thr[u].noh !in s.m.head { assert ThreadOK(s, u); }
  }

  lemma OtherHead(s: State, s': State, t: nat, th: Thread, oh: nat)
    requires t in s.thr && Become(s, s', t, th) && Valid(s.m) && Valid(s'.m)
    requires oh in s.refcnt && HeadOK(s, oh) && oh in s'.refcnt && s'.refcnt[oh] == s.refcnt[oh]
    requires Linked(s'.m, oh) <==> Linked(s.m, oh)
    requires s.thr[t] != Holding(oh) && s.thr[t] != Dropped(oh)
    requires th != Holding(oh) && th != Dropped(oh)
    ensures HeadOK(s', oh)
  {
    HoldersAfter(s, s', t, th, oh);
  }

  /** All heads but `x` keep their count, their link, and their holders. */
  lemma OtherHeads(s: State, s': State, t: nat, th: Thread, x: nat)
    requires Inv(s) && t in s.thr && Become(s, s', t, th) && Valid(s'.m)
    requires s'.refcnt.Keys == s.refcnt.Keys + {x} && HeadOK(s', x)
    requires forall oh :: oh in s.refcnt && oh != x ==> s'.refcnt[oh] == s.refcnt[oh]
    requires forall oh :: oh in s.refcnt && oh != x ==> (Linked(s'.m, oh) <==> Linked(s.m, oh))
    requires s.thr[t].Holding? || s.thr[t].Dropped? ==> s.thr[t].oh == x
    requires th.Holding? || th.Dropped? ==> th.oh == x
    requires s'.refcnt.Keys == s'.m.head.Keys
    ensures HeadsOK(s')
  {
    forall oh | oh in s'.refcnt && oh != x ensures HeadOK(s', oh) {
      assert HeadOK(s, oh);
      OtherHead(s, s', t, th, oh);
    }
  }

  /** A step of a thread that leaves memory and counts alone. */
  lemma LocalStep(s: State, s': State, t: nat, th: Thread)
    requires Inv(s) && t in s.thr && Become(s, s', t, th)
    requires s'.m == s.m && s'.refcnt == s.refcnt
    requires !s.thr[t].Holding? && !s.thr[t].Dropped? && !th.Holding? && !th.Dropped?
    requires HasSpare(th) ==> Spare(s, t, th.noh)
    requires th.Walking? ==> LinkOK(s.m, th.pp, -1) && th.hops <= Rank(s.m, th.pp)
    requires th.Got? ==> th.oh in s.m.head && s.m.head[th.oh] == th.d
    ensures Inv(s')
  {
    assert ThreadOK(s, t);
    SparesArePrivate(s);
    OtherThreads(s, s', t, th);
    forall oh | oh in s'.refcnt ensures HeadOK(s', oh) {
      assert HeadOK(s, oh);
      OtherHead(s, s', t, th, oh);
    }
  }

  lemma WalkKeepsInv(s: State, s': State, t: nat)
    requires Inv(s) && t in s.thr && Walk(s, s', t)
    ensures Inv(s') && s'.thr[t] != s.thr[t]
    ensures s.thr[t].pp != Null
  {
    assert ThreadOK(s, t);
    var w := s.thr[t];
    if w.pp.ToY? {
      var y := s.m.ys[w.pp.y];
      assert NodeOK(s.m, y);
      var l := y.Leaf(Direction(y, w.d));
      if l.ToY? { assert NodeOK(s.m, s.m.ys[l.y]); }
    }
    LocalStep(s, s', t, s'.thr[t]);
  }

  lemma LockedFindKeepsInv(s: State, s': State, t: nat)
    requires Inv(s) && t in s.thr && LockedFind(s, s', t)
    ensures Inv(s')
  {
    assert ThreadOK(s, t);
    var k := Bits(s.thr[t].d);
    ListedHeads(s.m, s.m.origo, k);
    BitsInjective(s.m.head[Index(s.m)[k]], s.thr[t].d);
    LocalStep(s, s', t, s'.thr[t]);
  }

  /** What LockedInsert and Unlink do to the memory, as far as threads can tell. */
  ghost predicate Inserted(m: Mem, m': Mem, d: Digest, oh: nat) {
    && Grows(m, m') && oh !in m.head && m'.head == m.head[oh := d]
    && Bits(d) !in Index(m) && Index(m') == Index(m)[Bits(d) := oh]
  }

  ghost predicate Removed(m: Mem, m': Mem, d: Digest) {
    && Grows(m, m') && m'.head == m.head
    && Bits(d) in Index(m) && Index(m') == Index(m) - {Bits(d)}
  }

  lemma LockedInsertInserts(s: State, s': State, t: nat, y2: nat)
    requires Inv(s) && t in s.thr && LockedInsert(s, s', t, y2)
    ensures Inserted(s.m, s'.m, s.thr[t].d, s.thr[t].noh)
  {
    assert ThreadOK(s, t);
    InsertCorrect(s.m, s.thr[t].d, s.thr[t].noh, y2);
  }

  lemma InsertedKeepsInv(s: State, s': State, t: nat)
    requires Inv(s) && t in s.thr && s.thr[t].Locking?
    requires Inserted(s.m, s'.m, s.thr[t].d, s.thr[t].noh)
    requires s'.refcnt == s.refcnt[s.thr[t].noh := 1] && Become(s, s', t, Holding(s.thr[t].noh))
    ensures Inv(s')
  {
    InsertedKeepsThreads(s, s', t);
    InsertedKeepsHeads(s, s', t);
  }

  lemma InsertedKeepsThreads(s: State, s': State, t: nat)
    requires Inv(s) && t in s.thr && s.thr[t].Locking?
    requires Inserted(s.m, s'.m, s.thr[t].d, s.thr[t].noh)
    requires s'.refcnt == s.refcnt[s.thr[t].noh := 1] && Become(s, s', t, Holding(s.thr[t].noh))
    ensures ThreadsOK(s')
  {
    forall u | u in s.thr && u != t && HasSpare(s.thr[u]) ensures s.thr[u].noh !in s'.m.head {
      assert ThreadOK(s, u);
    }
    SparesArePrivate(s);
    OtherThreads(s, s', t, Holding(s.thr[t].noh));
  }

  lemma InsertedKeepsHeads(s: State, s': State, t: nat)
    requires Inv(s) && t in s.thr && s.thr[t].Locking?
    requires Inserted(s.m, s'.m, s.thr[t].d, s.thr[t].noh)
    requires s'.refcnt == s.refcnt[s.thr[t].noh := 1] && Become(s, s', t, Holding(s.thr[t].noh))
    ensures HeadsOK(s')
  {
    NewHead(s, s', t);
    assert ThreadOK(s, t);
    OtherHeads(s, s', t, Holding(s.thr[t].noh), s.thr[t].noh);
  }

  lemma NewHead(s: State, s': State, t: nat)
    requires Inv(s) && t in s.thr && s.thr[t].Locking? && Become(s, s', t, Holding(s.thr[t].noh))
    ensures Holders(s', s.thr[t].noh) == {t}
  {
    var noh := s.thr[t].noh;
    assert ThreadOK(s, t);
    forall u | u in s.thr ensures s.thr[u] != Holding(noh) { assert ThreadOK(s, u); }
  }

  lemma AcquireKeepsInv(s: State, s': State, t: nat)
    requires Inv(s) && t in s.thr && Acquire(s, s', t)
    ensures Inv(s')
  {
    assert ThreadOK(s, t);
    if s.refcnt[s.thr[t].oh] == 0 {
      LocalStep(s, s', t, s'.thr[t]);
    } else {
      SparesArePrivate(s);
      OtherThreads(s, s', t, s'.thr[t]);
      AcquireKeepsHeads(s, s', t);
    }
  }

  lemma AcquireKeepsHeads(s: State, s': State, t: nat)
    requires Inv(s) && t in s.thr && Acquire(s, s', t) && s.refcnt[s.thr[t].oh] > 0
    ensures HeadsOK(s')
  {
    var oh := s.thr[t].oh;
    assert ThreadOK(s, t) && HeadOK(s, oh);
    HoldersAfter(s, s', t, Holding(oh), oh);
    OtherHeads(s, s', t, Holding(oh), oh);
  }

  lemma DropKeepsInv(s: State, s': State, t: nat)
    requires Inv(s) && t in s.thr && Drop(s, s', t)
    ensures Inv(s')
  {
    assert ThreadOK(s, t);
    SparesArePrivate(s);
    OtherThreads(s, s', t, s'.thr[t]);
    DropKeepsHeads(s, s', t);
  }

  lemma DropKeepsHeads(s: State, s': State, t: nat)
    requires Inv(s) && t in s.thr && Drop(s, s', t)
    ensures HeadsOK(s')
  {
    var oh := s.thr[t].oh;
    assert HeadOK(s, oh);
    HoldersAfter(s, s', t, s'.thr[t], oh);
    NoDroppersWhileCounted(s, oh);
    OtherHeads(s, s', t, s'.thr[t], oh);
  }

  lemma NoDroppersWhileCounted(s: State, oh: nat)
    requires Inv(s) && oh in s.refcnt && s.refcnt[oh] > 0
    ensures Droppers(s, oh) == {}
  {
    forall u | u in s.thr ensures s.thr[u] != Dropped(oh) { assert ThreadOK(s, u); }
  }

  /** The thread that dropped the last reference is alone in doing so, and the head is still there for
      it to unlink. */
  lemma DroppedIsLinked(s: State, t: nat)
    requires Inv(s) && t in s.thr && s.thr[t].Dropped?
    ensures Linked(s.m, s.thr[t].oh) && Droppers(s, s.thr[t].oh) == {t}
  {
    assert ThreadOK(s, t);
    var oh := s.thr[t].oh;
    assert HeadOK(s, oh);
    assert t in Droppers(s, oh);
    var rest := Droppers(s, oh) - {t};
    assert |rest| == |Droppers(s, oh)| - 1;
  }

  lemma UnlinkRemoves(s: State, s': State, t: nat)
    requires Inv(s) && t in s.thr && Unlink(s, s', t)
    ensures Removed(s.m, s'.m, s.m.head[s.thr[t].oh])
  {
    assert ThreadOK(s, t);
    DroppedIsLinked(s, t);
    DeleteCorrect(s.m, s.m.head[s.thr[t].oh]);
  }

  lemma RemovedKeepsInv(s: State, s': State, t: nat)
    requires Inv(s) && t in s.thr && s.thr[t].Dropped? && s.thr[t].oh in s.m.head
    requires Removed(s.m, s'.m, s.m.head[s.thr[t].oh]) && s'.refcnt == s.refcnt
    requires Become(s, s', t, Idle)
    ensures Inv(s')
  {
    assert ThreadOK(s, t);
    SparesArePrivate(s);
    OtherThreads(s, s', t, Idle);
    RemovedKeepsHeads(s, s', t);
  }

  lemma RemovedKeepsHeads(s: State, s': State, t: nat)
    requires Inv(s) && t in s.thr && s.thr[t].Dropped? && s.thr[t].oh in s.m.head
    requires Removed(s.m, s'.m, s.m.head[s.thr[t].oh]) && s'.refcnt == s.refcnt
    requires Become(s, s', t, Idle)
    ensures HeadsOK(s')
  {
    var oh := s.thr[t].oh;
    DroppedIsLinked(s, t);
    assert ThreadOK(s, t) && HeadOK(s, oh);
    HoldersAfter(s, s', t, Idle, oh);
    forall x | x in s.m.head && x != oh ensures Linked(s'.m, x) <==> Linked(s.m, x) {
      LinkedAfterDelete(s.m, s'.m, oh, x);
    }
    OtherHeads(s, s', t, Idle, oh);
  }

  lemma LinkedAfterDelete(m: Mem, m': Mem, oh: nat, x: nat)
    requires Valid(m) && Valid(m') && Linked(m, oh) && m'.head == m.head
    requires Index(m') == Index(m) - {Bits(m.head[oh])}
    ensures Linked(m', x) <==> Linked(m, x) && x != oh
  {
  }

  lemma StepKeepsInv(s: State, s': State, t: nat, mv: Move)
    requires Inv(s) && Step(s, s', t, mv)
    ensures Inv(s')
  {
    match mv
    case DoStart(_, _) => LocalStep(s, s', t, s'.thr[t]);
    case DoWalk => WalkKeepsInv(s, s', t);
    case DoLockedFind => LockedFindKeepsInv(s, s', t);
    case DoLockedInsert(y2) =>
      LockedInsertInserts(s, s', t, y2);
      InsertedKeepsInv(s, s', t);
    case DoAcquire => AcquireKeepsInv(s, s', t);
    case DoDrop => DropKeepsInv(s, s', t);
    case DoUnlink =>
      assert ThreadOK(s, t);
      UnlinkRemoves(s, s', t);
      RemovedKeepsInv(s, s', t);
  }

  // ---- the index refines the reference index ----

  /** The digests that have a counted head. */
  ghost predicate Live(s: State, d: Digest)
    requires Valid(s.m)
  {
    Bits(d) in Index(s.m) && Index(s.m)[Bits(d)] in s.refcnt && s.refcnt[Index(s.m)[Bits(d)]] > 0
  }

  ghost predicate ShowsAt(s: State, ix: HeadIndex.Index, d: Digest)
    requires Valid(s.m)
  {
    if Live(s, d) then d in ix && ix[d] == EntryOf(s, d) else d !in ix
  }

  /** `ix` is what the users of the index see. */
  ghost predicate Shows(s: State, ix: HeadIndex.Index)
    requires Valid(s.m)
  {
    forall d :: ShowsAt(s, ix, d)
  }

  ghost function EntryOf(s: State, d: Digest): HeadIndex.Entry
    requires Valid(s.m) && Live(s, d)
  {
    HeadIndex.Entry(Index(s.m)[Bits(d)], s.refcnt[Index(s.m)[Bits(d)]])
  }

  /** The reference index performs an event, provided it would give the same answer. */
  function Perform(ix: HeadIndex.Index, e: Event): Option<HeadIndex.Index> {
    match e
    case Internal => Some(ix)
    case Lookup(d, noh, oh) =>
      var (ix', found) := HeadIndex.Lookup(ix, d, noh);
      if found == oh then Some(ix') else None
    case Deref(d) =>
      if d in ix && ix[d].refcnt > 0 then Some(HeadIndex.Deref(ix, d)) else None
  }

  function Replay(es: seq<Event>): Option<HeadIndex.Index> {
    if es == [] then Some(map[])
    else
      match Replay(es[..|es| - 1])
      case None => None
      case Some(ix) => Perform(ix, es[|es| - 1])
  }

  /** A counted head is the only one with its digest. */
  lemma OneLiveHead(s: State, a: nat, b: nat)
    requires Inv(s) && a in s.refcnt && b in s.refcnt && s.refcnt[a] > 0 && s.refcnt[b] > 0
    requires s.m.head[a] == s.m.head[b]
    ensures a == b
  {
    assert HeadOK(s, a) && HeadOK(s, b);
  }

  lemma ListedIsLinked(s: State, d: Digest)
    requires Inv(s) && Bits(d) in Index(s.m)
    ensures var oh := Index(s.m)[Bits(d)]; Linked(s.m, oh) && s.m.head[oh] == d && oh in s.refcnt
  {
    ListedHeads(s.m, s.m.origo, Bits(d));
    BitsInjective(s.m.head[Index(s.m)[Bits(d)]], d);
  }

  /** Only the entry of `d` changes: no other digest has the same head. */
  lemma CountChanges(s: State, s': State, ix: HeadIndex.Index, d: Digest, oh: nat, n: nat)
    requires Inv(s) && Valid(s'.m) && Shows(s, ix) && s'.m == s.m && s'.refcnt == s.refcnt[oh := n]
    requires Bits(d) in Index(s.m) && Index(s.m)[Bits(d)] == oh
    requires oh in s.refcnt && s.refcnt[oh] > 0
    ensures d in ix && ix[d] == HeadIndex.Entry(oh, s.refcnt[oh])
    ensures Shows(s', if n == 0 then ix - {d} else ix[d := HeadIndex.Entry(oh, n)])
  {
    hide ThreadsOK, HeadsOK, Published, WellFormed;
    assert ShowsAt(s, ix, d);
    var ix' := if n == 0 then ix - {d} else ix[d := HeadIndex.Entry(oh, n)];
    forall e | e != d ensures ShowsAt(s', ix', e) {
      assert ShowsAt(s, ix, e);
      OtherCount(s, s', d, oh, e);
    }
    assert ShowsAt(s', ix', d);
  }

  lemma OtherCount(s: State, s': State, d: Digest, oh: nat, e: Digest)
    requires Inv(s) && s'.m == s.m && e != d
    requires Bits(d) in Index(s.m) && Index(s.m)[Bits(d)] == oh
    requires oh in s.refcnt && s'.refcnt.Keys == s.refcnt.Keys
    requires forall x :: x in s.refcnt && x != oh ==> s'.refcnt[x] == s.refcnt[x]
    ensures Live(s', e) <==> Live(s, e)
    ensures Live(s, e) ==> EntryOf(s', e) == EntryOf(s, e)
  {
    if Bits(e) in Index(s.m) && Index(s.m)[Bits(e)] == oh {
      ListedIsLinked(s, e);
      ListedIsLinked(s, d);
    }
  }

  lemma InsertShows(s: State, s': State, ix: HeadIndex.Index, d: Digest, noh: nat)
    requires Inv(s) && Shows(s, ix) && Inserted(s.m, s'.m, d, noh)
    requires s'.refcnt == s.refcnt[noh := 1]
    ensures d !in ix && Shows(s', ix[d := HeadIndex.Entry(noh, 1)])
  {
    assert ShowsAt(s, ix, d);
    var ix' := ix[d := HeadIndex.Entry(noh, 1)];
    forall e ensures ShowsAt(s', ix', e) {
      assert ShowsAt(s, ix, e);
      if e != d { InsertOther(s, s', d, noh, e); }
    }
  }

  lemma InsertOther(s: State, s': State, d: Digest, noh: nat, e: Digest)
    requires Inv(s) && Inserted(s.m, s'.m, d, noh) && s'.refcnt == s.refcnt[noh := 1] && e != d
    ensures Live(s', e) <==> Live(s, e)
    ensures Live(s, e) ==> EntryOf(s', e) == EntryOf(s, e)
  {
    if Bits(e) == Bits(d) { BitsInjective(d, e); }
    if Bits(e) in Index(s.m) { ListedIsLinked(s, e); }
  }

  lemma UnlinkShows(s: State, s': State, ix: HeadIndex.Index, d: Digest)
    requires Inv(s) && Shows(s, ix) && Removed(s.m, s'.m, d) && s'.refcnt == s.refcnt
    requires !Live(s, d)
    ensures Shows(s', ix)
  {
    forall e ensures ShowsAt(s', ix, e) {
      assert ShowsAt(s, ix, e);
      if e != d && Bits(e) == Bits(d) { BitsInjective(d, e); }
    }
  }

  /** Forward simulation: each step is either invisible or one operation of the reference index with
      the same answer. */
  lemma StepRefines(s: State, s': State, t: nat, mv: Move, ix: HeadIndex.Index)
    requires Inv(s) && Step(s, s', t, mv) && Shows(s, ix)
    ensures var r := Perform(ix, EventOf(s, t, mv));
      Inv(s') && r.Some? && Shows(s', r.value)
  {
    StepKeepsInv(s, s', t, mv);
    match mv
    case DoStart(_, _) => SameShows(s, s', ix);
    case DoWalk => SameShows(s, s', ix);
    case DoLockedFind => SameShows(s, s', ix);
    case DoLockedInsert(y2) => InsertRefines(s, s', t, y2, ix);
    case DoAcquire => AcquireRefines(s, s', t, ix);
    case DoDrop => DropRefines(s, s', t, ix);
    case DoUnlink => UnlinkRefines(s, s', t, ix);
  }

  lemma InsertRefines(s: State, s': State, t: nat, y2: nat, ix: HeadIndex.Index)
    requires Inv(s) && Inv(s') && t in s.thr && LockedInsert(s, s', t, y2) && Shows(s, ix)
    ensures var r := Perform(ix, EventOf(s, t, DoLockedInsert(y2))); r.Some? && Shows(s', r.value)
  {
    LockedInsertInserts(s, s', t, y2);
    InsertShows(s, s', ix, s.thr[t].d, s.thr[t].noh);
  }

  lemma AcquireRefines(s: State, s': State, t: nat, ix: HeadIndex.Index)
    requires Inv(s) && Inv(s') && t in s.thr && Acquire(s, s', t) && Shows(s, ix)
    ensures var r := Perform(ix, EventOf(s, t, DoAcquire)); r.Some? && Shows(s', r.value)
  {
    hide ThreadsOK, HeadsOK, Published, WellFormed;
    var w := s.thr[t];
    if s.refcnt[w.oh] > 0 {
      var n := s.refcnt[w.oh];
      CountedIsLinked(s, w.oh);
      GotHasDigest(s, t);
      hide Shows;
      CountChanges(s, s', ix, w.d, w.oh, n + 1);
      PerformLookup(ix, w.d, w.noh, w.oh, n);
    } else {
      SameShows(s, s', ix);
    }
  }

  lemma CountedIsLinked(s: State, oh: nat)
    requires Inv(s) && oh in s.refcnt && s.refcnt[oh] > 0
    ensures Linked(s.m, oh)
  {
    assert HeadOK(s, oh);
  }

  lemma GotHasDigest(s: State, t: nat)
    requires Inv(s) && t in s.thr && s.thr[t].Got?
    ensures s.thr[t].oh in s.m.head && s.m.head[s.thr[t].oh] == s.thr[t].d
  {
    assert ThreadOK(s, t);
  }

  lemma DropRefines(s: State, s': State, t: nat, ix: HeadIndex.Index)
    requires Inv(s) && Inv(s') && t in s.thr && Drop(s, s', t) && Shows(s, ix)
    ensures var r := Perform(ix, EventOf(s, t, DoDrop)); r.Some? && Shows(s', r.value)
  {
    hide ThreadsOK, HeadsOK, Published, WellFormed;
    var oh := s.thr[t].oh;
    var n := s.refcnt[oh];
    CountedIsLinked(s, oh);
    hide Shows;
    CountChanges(s, s', ix, s.m.head[oh], oh, n - 1);
    PerformDeref(ix, s.m.head[oh], oh, n);
  }

  lemma PerformLookup(ix: HeadIndex.Index, d: Digest, noh: nat, oh: nat, n: nat)
    requires d in ix && ix[d] == HeadIndex.Entry(oh, n)
    ensures Perform(ix, Lookup(d, noh, oh)) == Some(ix[d := HeadIndex.Entry(oh, n + 1)])
  {
  }

  lemma PerformDeref(ix: HeadIndex.Index, d: Digest, oh: nat, n: nat)
    requires d in ix && ix[d] == HeadIndex.Entry(oh, n) && n > 0
    ensures Perform(ix, Deref(d))
      == Some(if n == 1 then ix - {d} else ix[d := HeadIndex.Entry(oh, n - 1)])
  {
  }

  lemma UnlinkRefines(s: State, s': State, t: nat, ix: HeadIndex.Index)
    requires Inv(s) && Inv(s') && t in s.thr && Unlink(s, s', t) && Shows(s, ix)
    ensures Shows(s', ix)
  {
    assert ThreadOK(s, t);
    UnlinkRemoves(s, s', t);
    DroppedIsLinked(s, t);
    UnlinkShows(s, s', ix, s.m.head[s.thr[t].oh]);
  }

  lemma SameShows(s: State, s': State, ix: HeadIndex.Index)
    requires Valid(s.m) && Shows(s, ix) && s'.m == s.m && s'.refcnt == s.refcnt
    ensures Shows(s', ix)
  {
    forall d ensures ShowsAt(s', ix, d) { assert ShowsAt(s, ix, d); }
  }

  // ---- whole runs ----

  datatype Turn = Turn(t: nat, mv: Move)

  /** `ss` are the states of a run in which the threads move as `sched` says. */
  ghost predicate Run(ss: seq<State>, sched: seq<Turn>) {
    && |ss| == |sched| + 1 && Init(ss[0])
    && forall i :: 0 <= i < |sched| ==> Step(ss[i], ss[i + 1], sched[i].t, sched[i].mv)
  }

  /** What the users of the index saw, in order. */
  ghost function Trace(ss: seq<State>, sched: seq<Turn>): (es: seq<Event>)
    requires Run(ss, sched)
  {
    seq(|sched|, i requires 0 <= i < |sched| =>
      assert Step(ss[i], ss[i + 1], sched[i].t, sched[i].mv); EventOf(ss[i], sched[i].t, sched[i].mv))
  }

  lemma InitShows(s: State)
    requires Init(s)
    ensures Inv(s) && Shows(s, map[])
  {
    assert forall t :: t in s.thr ==> ThreadOK(s, t);
  }

  lemma TraceAt(ss: seq<State>, sched: seq<Turn>, i: nat)
    requires Run(ss, sched) && i < |sched|
    ensures Step(ss[i], ss[i + 1], sched[i].t, sched[i].mv) && sched[i].t in ss[i].thr
    ensures Trace(ss, sched)[i] == EventOf(ss[i], sched[i].t, sched[i].mv)
  {
    assert Step(ss[i], ss[i + 1], sched[i].t, sched[i].mv);
  }

  lemma RunCut(ss: seq<State>, sched: seq<Turn>, n: nat)
    requires Run(ss, sched) && n <= |sched|
    ensures Run(ss[..n + 1], sched[..n])
  {
    hide Step, Init;
    forall i | 0 <= i < n
      ensures Step(ss[..n + 1][i], ss[..n + 1][i + 1], sched[..n][i].t, sched[..n][i].mv)
    {
      assert Step(ss[i], ss[i + 1], sched[i].t, sched[i].mv);
    }
  }

  lemma RunPrefix(ss: seq<State>, sched: seq<Turn>)
    requires Run(ss, sched) && sched != []
    ensures var n := |sched| - 1;
      && Run(ss[..n + 1], sched[..n])
      && Step(ss[n], ss[n + 1], sched[n].t, sched[n].mv)
      && Trace(ss, sched)
         == Trace(ss[..n + 1], sched[..n]) + [EventOf(ss[n], sched[n].t, sched[n].mv)]
  {
    hide Step, EventOf, Init;
    var n := |sched| - 1;
    RunCut(ss, sched, n);
    TraceAt(ss, sched, n);
    forall i: nat | i < n ensures Trace(ss, sched)[i] == Trace(ss[..n + 1], sched[..n])[i] {
      TraceAt(ss, sched, i);
      TraceAt(ss[..n + 1], sched[..n], i);
    }
    hide Run;
  }

  /** In every interleaving, the lookups and derefs that threads perform are a run of the reference
      index with the same answers, and the crit-bit tree shows its contents. */
  lemma {:induction false} RunRefinesReference(ss: seq<State>, sched: seq<Turn>)
    requires Run(ss, sched)
    ensures Inv(ss[|sched|])
    ensures var r := Replay(Trace(ss, sched)); r.Some? && Shows(ss[|sched|], r.value)
    decreases |sched|
  {
    if sched == [] {
      InitShows(ss[0]);
    } else {
      var n := |sched| - 1;
      RunPrefix(ss, sched);
      var es := Trace(ss[..n + 1], sched[..n]);
      RunRefinesReference(ss[..n + 1], sched[..n]);
      StepRefines(ss[n], ss[n + 1], sched[n].t, sched[n].mv, Replay(es).value);
      assert Trace(ss, sched)[..n] == es;
    }
  }

  /** A reader makes at most 256 hops, never meets a null link, and what it returns has the digest it
      looked for. */
  lemma ReadersAreSafe(ss: seq<State>, sched: seq<Turn>, t: nat)
    requires Run(ss, sched) && t in ss[|sched|].thr
    ensures var s := ss[|sched|]; var w := s.thr[t];
      && (w.Walking? ==> w.hops <= 256 && w.pp != Null)
      && (w.Got? ==> w.oh in s.m.head && s.m.head[w.oh] == w.d)
  {
    RunRefinesReference(ss, sched);
    assert ThreadOK(ss[|sched|], t);
  }

  /** At no time do two counted heads share a digest. */
  lemma AtMostOneLiveHead(ss: seq<State>, sched: seq<Turn>, a: nat, b: nat)
    requires Run(ss, sched)
    requires var s := ss[|sched|];
      && a in s.refcnt && b in s.refcnt && s.refcnt[a] > 0 && s.refcnt[b] > 0
      && a in s.m.head && b in s.m.head && s.m.head[a] == s.m.head[b]
    ensures a == b
  {
    RunRefinesReference(ss, sched);
    OneLiveHead(ss[|sched|], a, b);
  }

  /** Every state of a run is the last of a shorter run. */
  lemma StateOfRun(ss: seq<State>, sched: seq<Turn>, i: nat)
    requires Run(ss, sched) && i <= |sched|
    ensures Inv(ss[i])
    ensures i < |sched| ==> Step(ss[i], ss[i + 1], sched[i].t, sched[i].mv)
  {
    RunCut(ss, sched, i);
    if i < |sched| { TraceAt(ss, sched, i); }
    RunRefinesReference(ss[..i + 1], sched[..i]);
  }

  /** The thread that holds the lock of a dead head unlinks it, so a dead head whose lock is free is
      not in the tree. */
  lemma DeadAndFreeIsUnlinked(s: State, oh: nat)
    requires Inv(s) && oh in s.refcnt && s.refcnt[oh] == 0 && LockFree(s, oh)
    ensures !Linked(s.m, oh)
  {
    assert HeadOK(s, oh);
  }

  /** One step: counts at zero stay at zero, and what is not linked then is not linked again. */
  lemma DeadHeadStep(s: State, s': State, t: nat, mv: Move, oh: nat)
    requires Inv(s) && Step(s, s', t, mv) && oh in s.refcnt && s.refcnt[oh] == 0
    ensures Inv(s') && oh in s'.refcnt && s'.refcnt[oh] == 0
    ensures !Linked(s.m, oh) ==> !Linked(s'.m, oh)
  {
    assert oh in s.m.head;
    hide HeadsOK, WellFormed;
    StepKeepsInv(s, s', t, mv);
    assert ThreadOK(s, t);
    match mv
    case DoLockedInsert(y2) => LockedInsertInserts(s, s', t, y2);
    case DoUnlink => UnlinkRemoves(s, s', t);
    case _ =>
  }

  /** A published head whose count reached zero stays at zero, and once unlinked it stays unlinked. */
  lemma {:induction false} DeadHeadsStayDead(ss: seq<State>, sched: seq<Turn>, i: nat, j: nat, oh: nat)
    requires Run(ss, sched) && i <= j <= |sched| && oh in ss[i].refcnt && ss[i].refcnt[oh] == 0
    ensures Inv(ss[i]) && Inv(ss[j]) && oh in ss[j].refcnt && ss[j].refcnt[oh] == 0
    ensures !Linked(ss[i].m, oh) ==> !Linked(ss[j].m, oh)
    decreases j - i
  {
    StateOfRun(ss, sched, i);
    if i < j {
      DeadHeadStep(ss[i], ss[i + 1], sched[i].t, sched[i].mv, oh);
      DeadHeadsStayDead(ss, sched, i + 1, j, oh);
    }
  }

  /** When a lookup meets a dead head and starts over, the lock made it wait until that head was
      unlinked: no search under the lock of the tree finds the same head again, however the run goes
      on. So the retries of one lookup meet ever new heads. */
  lemma RetriesMeetNewHeads(ss: seq<State>, sched: seq<Turn>, i: nat, j: nat, t: nat, u: nat)
    requires Run(ss, sched) && i < j < |sched|
    requires sched[i] == Turn(t, DoAcquire) && sched[j] == Turn(u, DoLockedFind)
    requires t in ss[i].thr && ss[i].thr[t].Got? && ss[i].thr[t].oh in ss[i].refcnt
    requires ss[i].refcnt[ss[i].thr[t].oh] == 0
    ensures ss[i + 1].thr == ss[i].thr[t := Locking(ss[i].thr[t].noh, ss[i].thr[t].d)]
    ensures u in ss[j + 1].thr && ss[j + 1].thr[u].Got? && ss[j + 1].thr[u].oh != ss[i].thr[t].oh
  {
    var oh := ss[i].thr[t].oh;
    StateOfRun(ss, sched, i);
    DeadAndFreeIsUnlinked(ss[i], oh);
    DeadHeadsStayDead(ss, sched, i, j, oh);
    StateOfRun(ss, sched, j);
    ListedIsLinked(ss[j], ss[j].thr[u].d);
  }

  ghost predicate CanStep(s: State, t: nat) {
    exists s', mv :: Step(s, s', t, mv)
  }

  /** No thread is ever stuck, and no assertion on its way can fail: from every reachable state each
      thread that is not idle has a step, or waits for the lock of a head whose holder has one. */
  lemma NoThreadIsStuck(s: State, t: nat)
    requires Inv(s) && t in s.thr && s.thr[t] != Idle
    ensures CanStep(s, t) || (s.thr[t].Got? && exists u :: u in Droppers(s, s.thr[t].oh) && CanStep(s, u))
  {
    hide Inv, CanStep;
    match s.thr[t]
    case Walking(_, _, _, _) => WalkingCanStep(s, t);
    case Locking(_, _) => LockingCanStep(s, t);
    case Got(_, _, oh) =>
      if LockFree(s, oh) { GotCanStep(s, t); }
      else {
        var u :| u in Droppers(s, oh);
        DroppedCanStep(s, u);
      }
    case Holding(_) => HoldingCanStep(s, t);
    case Dropped(_) => DroppedCanStep(s, t);
  }

  lemma WalkingCanStep(s: State, t: nat)
    requires Inv(s) && t in s.thr && s.thr[t].Walking?
    ensures CanStep(s, t)
  {
    assert ThreadOK(s, t);
    var pp := s.thr[t].pp;
    if pp.ToY? { assert NodeOK(s.m, s.m.ys[pp.y]); }
    assert Step(s, s.(thr := s.thr[t := AfterRead(s.m, s.thr[t])]), t, DoWalk);
  }

  lemma GotCanStep(s: State, t: nat)
    requires Inv(s) && t in s.thr && s.thr[t].Got? && LockFree(s, s.thr[t].oh)
    ensures CanStep(s, t)
  {
    assert ThreadOK(s, t);
    var w := s.thr[t];
    var s' := if s.refcnt[w.oh] > 0
      then s.(refcnt := s.refcnt[w.oh := s.refcnt[w.oh] + 1], thr := s.thr[t := Holding(w.oh)])
      else s.(thr := s.thr[t := Locking(w.noh, w.d)]);
    assert Step(s, s', t, DoAcquire);
  }

  lemma HoldingCanStep(s: State, t: nat)
    requires Inv(s) && t in s.thr && s.thr[t].Holding?
    ensures CanStep(s, t)
  {
    assert ThreadOK(s, t);
    var oh := s.thr[t].oh;
    assert t in Holders(s, oh) && HeadOK(s, oh);
    NoDroppersWhileCounted(s, oh);
    var s' := s.(refcnt := s.refcnt[oh := s.refcnt[oh] - 1],
                 thr := s.thr[t := if s.refcnt[oh] == 1 then Dropped(oh) else Idle]);
    assert Step(s, s', t, DoDrop);
  }

  lemma DroppedCanStep(s: State, t: nat)
    requires Inv(s) && t in s.thr && s.thr[t].Dropped?
    ensures CanStep(s, t)
  {
    assert ThreadOK(s, t);
    var oh := s.thr[t].oh;
    DroppedIsLinked(s, t);
    var s' := s.(m := AfterDelete(s.m, s.m.head[oh]).0, thr := s.thr[t := Idle]);
    assert Step(s, s', t, DoUnlink);
  }

  lemma LockingCanStep(s: State, t: nat)
    requires Inv(s) && t in s.thr && s.thr[t].Locking?
    ensures CanStep(s, t)
  {
    var w := s.thr[t];
    if Bits(w.d) in Index(s.m) {
      var s' := s.(thr := s.thr[t := Got(w.noh, w.d, Index(s.m)[Bits(w.d)])]);
      assert Step(s, s', t, DoLockedFind);
    } else {
      var y2 := FreshNode(s.m.ys.Keys);
      assert ThreadOK(s, t);
      var s' := State(AfterInsert(s.m, w.d, w.noh, y2), s.refcnt[w.noh := 1],
                      s.thr[t := Holding(w.noh)]);
      assert Step(s, s', t, DoLockedInsert(y2));
    }
  }

  lemma {:induction false} FreshNode(xs: set<nat>) returns (n: nat)
    ensures n !in xs && forall x :: x in xs ==> x < n
  {
    if xs == {} {
      n := 0;
    } else {
      var x :| x in xs;
      var k := FreshNode(xs - {x});
      n := if x < k then k else x + 1;
      forall y | y in xs ensures y < n { assert y in xs - {x} || y == x; }
    }
  }
}
