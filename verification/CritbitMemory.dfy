/** The memory of the crit-bit index: tagged links, branch nodes, and the root word. */
module CritbitMemory {
  import opened DigestBits
  import opened CritbitTree

  /** The tagged pointer words of the index. */
  datatype Link = Null | ToNode(oh: nat) | ToY(y: nat)

  datatype HcbY = HcbY(critbit: nat, ptr: nat, bitmask: bv8, leaf0: Link, leaf1: Link) {
    function Leaf(s: bool): Link { if s then leaf1 else leaf0 }
  }

  /** The word a `volatile uintptr_t *p` points at. */
  datatype Slot = Origo | LeafOf(y: nat, s: bool)

  /** All words a reader can reach: nodes and heads stay here after they are unlinked, because
      cooled memory outlives every reader. */
  datatype Mem = Mem(origo: Link, ys: map<nat, HcbY>, head: map<nat, Digest>)

  function Bits(d: Digest): Key {
    seq(256, i requires 0 <= i < 256 => Bit(d, i))
  }

  lemma BitsInjective(d: Digest, e: Digest)
    requires Bits(d) == Bits(e)
    ensures d == e
  {
    if d != e {
      var c := DifferentDigestsHaveCritBit(d, e);
      CritBitOfBits(d, e, c);
    }
  }

  lemma CritBitOfBits(d: Digest, e: Digest, c: nat)
    requires IsCritBit(d, e, c)
    ensures KeysPartAt(Bits(d), Bits(e), c)
  {
    assert forall i: nat :: i < c ==> Bits(d)[i] == Bits(e)[i];
  }

  /** Which way a search turns at a node: the byte at `ptr` tested against the mask. */
  predicate Direction(y: HcbY, d: Digest)
    requires y.ptr < DIGEST_LEN
  {
    d[y.ptr] & y.bitmask != 0
  }

  // ---- what holds of every node ever published ----

  /** The link is not null and leads to a published head, or to a published node whose critical bit
      is larger than `above`. */
  ghost predicate LinkOK(m: Mem, l: Link, above: int) {
    match l
    case Null => false
    case ToNode(oh) => oh in m.head
    case ToY(y) => y in m.ys && m.ys[y].critbit > above
  }

  ghost predicate NodeOK(m: Mem, y: HcbY) {
    && y.critbit < 256
    && y.ptr == y.critbit / 8 && y.bitmask == Mask(y.critbit % 8)
    && LinkOK(m, y.leaf0, y.critbit) && LinkOK(m, y.leaf1, y.critbit)
  }

  ghost predicate Published(m: Mem) {
    && (m.origo.Null? || LinkOK(m, m.origo, -1))
    && forall y {:trigger NodeOK(m, m.ys[y])} :: y in m.ys ==> NodeOK(m, m.ys[y])
  }

  lemma DirectionIsBit(m: Mem, y: HcbY, d: Digest)
    requires NodeOK(m, y)
    ensures Direction(y, d) == Bits(d)[y.critbit]
  {
  }

  /** How far down a link leads; every hop increases it. */
  function Rank(m: Mem, l: Link): nat {
    if l.ToY? && l.y in m.ys && m.ys[l.y].critbit < 256 then m.ys[l.y].critbit else 256
  }

  /** The tree below a link. */
  ghost function Unfold(m: Mem, l: Link): (t: Tree)
    requires Published(m) && LinkOK(m, l, -1)
    ensures l.ToY? ==> NodeOK(m, m.ys[l.y])
    decreases 256 - Rank(m, l)
  {
    match l
    case ToNode(oh) => CritbitTree.Leaf(Bits(m.head[oh]), oh)
    case ToY(y) =>
      assert NodeOK(m, m.ys[y]);
      Fork(m.ys[y].critbit, y, Unfold(m, m.ys[y].leaf0), Unfold(m, m.ys[y].leaf1))
  }

  /** The index is well formed: the root is null or leads to a crit-bit tree. */
  ghost predicate Valid(m: Mem) {
    Published(m) && (m.origo.ToNode? || m.origo.ToY? ==> WellFormed(Unfold(m, m.origo)))
  }

  ghost function Index(m: Mem): map<Key, nat>
    requires Valid(m)
  {
    if m.origo.Null? then map[] else Contents(Unfold(m, m.origo))
  }

  ghost function LiveYs(m: Mem): set<nat>
    requires Valid(m)
  {
    if m.origo.Null? then {} else Ys(Unfold(m, m.origo))
  }

  function Read(m: Mem, p: Slot): Link
    requires p.LeafOf? ==> p.y in m.ys
  {
    match p
    case Origo => m.origo
    case LeafOf(y, s) => m.ys[y].Leaf(s)
  }

  function Write(m: Mem, p: Slot, l: Link): Mem
    requires p.LeafOf? ==> p.y in m.ys
  {
    match p
    case Origo => m.(origo := l)
    case LeafOf(y, s) =>
      m.(ys := m.ys[y := if s then m.ys[y].(leaf1 := l) else m.ys[y].(leaf0 := l)])
  }

  // ---- facts about unfolding ----

  lemma {:induction false} UnfoldedNodes(m: Mem, l: Link, y: nat)
    requires Published(m) && LinkOK(m, l, -1) && y in Ys(Unfold(m, l))
    ensures y in m.ys && m.ys[y].critbit >= Rank(m, l)
    ensures Keys(Unfold(m, ToY(y))) <= Keys(Unfold(m, l))
    decreases 256 - Rank(m, l)
  {
    var n := m.ys[l.y];
    if y != l.y {
      if y in Ys(Unfold(m, n.leaf0)) { UnfoldedNodes(m, n.leaf0, y); }
      else { UnfoldedNodes(m, n.leaf1, y); }
    }
  }

  /** A node occurs at most once in a well-formed tree: its keys could not lie on both sides. */
  lemma SubtreesDisjoint(m: Mem, l: Link)
    requires Published(m) && LinkOK(m, l, -1) && l.ToY? && WellFormed(Unfold(m, l))
    ensures var n := m.ys[l.y];
      Ys(Unfold(m, n.leaf0)) !! Ys(Unfold(m, n.leaf1))
      && l.y !in Ys(Unfold(m, n.leaf0)) && l.y !in Ys(Unfold(m, n.leaf1))
  {
    var n := m.ys[l.y];
    var a, b := Unfold(m, n.leaf0), Unfold(m, n.leaf1);
    ContentsOfChildren(Unfold(m, l));
    forall y | y in Ys(a) ensures y !in Ys(b) && y != l.y {
      UnfoldedNodes(m, n.leaf0, y);
      if y in Ys(b) { UnfoldedNodes(m, n.leaf1, y); }
    }
    if l.y in Ys(b) { UnfoldedNodes(m, n.leaf1, l.y); }
  }

  /** `m'` extends `m` and differs from it, on what `m` already had, in the word `q` only. */
  ghost predicate DiffersAt(m: Mem, m': Mem, q: Slot) {
    && (forall oh :: oh in m.head ==> oh in m'.head && m'.head[oh] == m.head[oh])
    && (forall y :: y in m.ys ==> y in m'.ys && m'.ys[y].critbit == m.ys[y].critbit)
    && (forall y :: y in m.ys && !(q.LeafOf? && q.y == y) ==> m'.ys[y] == m.ys[y])
  }

  lemma {:induction false} UnfoldFrame(m: Mem, m': Mem, l: Link, q: Slot)
    requires Published(m) && Published(m') && LinkOK(m, l, -1) && DiffersAt(m, m', q)
    requires q.LeafOf? ==> q.y !in Ys(Unfold(m, l))
    ensures LinkOK(m', l, -1) && Unfold(m', l) == Unfold(m, l)
    decreases 256 - Rank(m, l)
  {
    if l.ToY? {
      assert NodeOK(m, m.ys[l.y]) && NodeOK(m', m'.ys[l.y]);
      UnfoldFrame(m, m', m.ys[l.y].leaf0, q);
      UnfoldFrame(m, m', m.ys[l.y].leaf1, q);
    }
  }

  // ---- insertion ----

  ghost predicate SlotOK(m: Mem, p: Slot) {
    match p
    case Origo => LinkOK(m, m.origo, -1)
    case LeafOf(y, _) => y in m.ys && NodeOK(m, m.ys[y])
  }

  /** The second descent of hcb_insert: the first word on the path of `d` that does not lead to a
      node with a critical bit of at most `c`. */
  ghost function SpliceSlot(m: Mem, p: Slot, d: Key, c: nat): (q: Slot)
    requires Published(m) && SlotOK(m, p)
    ensures SlotOK(m, q)
    decreases 256 - Rank(m, Read(m, p))
  {
    var l := Read(m, p);
    if l.ToY? && m.ys[l.y].critbit <= c
    then
      assert NodeOK(m, m.ys[l.y]);
      SpliceSlot(m, LeafOf(l.y, d[m.ys[l.y].critbit]), d, c)
    else p
  }

  /** The new branch node: its own head on the side of the digest, the old subtree on the other. */
  function NewY(turn: bool, oh: nat, c: nat, rest: Link): HcbY
    requires c < 256
  {
    if turn then HcbY(c, c / 8, Mask(c % 8), rest, ToNode(oh))
    else HcbY(c, c / 8, Mask(c % 8), ToNode(oh), rest)
  }

  /** Memory after the new node and head are filled in, before any word leads to them. */
  ghost function Prepared(m: Mem, q: Slot, d: Digest, oh: nat, y2: nat, c: nat): Mem
    requires Published(m) && SlotOK(m, q) && c < 256
  {
    m.(ys := m.ys[y2 := NewY(Bits(d)[c], oh, c, Read(m, q))], head := m.head[oh := d])
  }

  /** Memory after the prepared node is published through the word `q`. */
  ghost function Spliced(m: Mem, q: Slot, d: Digest, oh: nat, y2: nat, c: nat): Mem
    requires Published(m) && SlotOK(m, q) && c < 256 && y2 !in m.ys
  {
    Write(Prepared(m, q, d, oh, y2, c), q, ToY(y2))
  }

  lemma PreparedPublished(m: Mem, q: Slot, d: Digest, oh: nat, y2: nat, c: nat)
    requires Published(m) && SlotOK(m, q) && c < 256 && y2 !in m.ys && oh !in m.head
    requires LinkOK(m, Read(m, q), c)
    ensures var m' := Prepared(m, q, d, oh, y2, c); Published(m') && DiffersAt(m, m', q)
  {
    var m' := Prepared(m, q, d, oh, y2, c);
    assert DiffersAt(m, m', q);
    LinkStays(m, m', q, Read(m, q), c);
    forall y | y in m.ys ensures NodeOK(m', m'.ys[y]) {
      NodeStays(m, m', q, m.ys[y]);
    }
    if !m.origo.Null? { LinkStays(m, m', q, m.origo, -1); }
  }

  lemma LinkStays(m: Mem, m': Mem, q: Slot, l: Link, above: int)
    requires LinkOK(m, l, above) && DiffersAt(m, m', q)
    ensures LinkOK(m', l, above)
  {
  }

  lemma NodeStays(m: Mem, m': Mem, q: Slot, n: HcbY)
    requires NodeOK(m, n) && DiffersAt(m, m', q)
    ensures NodeOK(m', n)
  {
    LinkStays(m, m', q, n.leaf0, n.critbit);
    LinkStays(m, m', q, n.leaf1, n.critbit);
  }

  /** Writing one word with a link that keeps the ranks increasing keeps every edge sound. */
  lemma WritePublished(m: Mem, q: Slot, l: Link)
    requires Published(m) && (q.LeafOf? ==> q.y in m.ys)
    requires LinkOK(m, l, if q.LeafOf? then m.ys[q.y].critbit else -1)
    ensures var m' := Write(m, q, l);
      Published(m') && DiffersAt(m, m', q) && Read(m', q) == l
      && SameElsewhere(m, m', q)
  {
    var m' := Write(m, q, l);
    assert DiffersAt(m, m', q);
    forall y | y in m'.ys ensures NodeOK(m', m'.ys[y]) {
      NodeStays(m, m', q, m.ys[y]);
      if q.LeafOf? && q.y == y { LinkStays(m, m', q, l, m.ys[y].critbit); }
    }
    match q {
      case Origo => LinkStays(m, m', q, l, -1);
      case LeafOf(_, _) => if !m.origo.Null? { LinkStays(m, m', q, m.origo, -1); }
    }
  }

  /** What publishing a prepared node does to the words of the memory. */
  ghost predicate IsSplice(m: Mem, m': Mem, q: Slot, k: Key, oh: nat, y2: nat, c: nat)
    requires Published(m) && SlotOK(m, q) && c < 256
  {
    && Published(m') && DiffersAt(m, m', q) && SlotOK(m', q) && Read(m', q) == ToY(y2)
    && y2 !in m.ys && y2 in m'.ys && m'.ys[y2] == NewY(k[c], oh, c, Read(m, q))
    && oh in m'.head && Bits(m'.head[oh]) == k
    && SameElsewhere(m, m', q)
  }

  ghost predicate SameElsewhere(m: Mem, m': Mem, q: Slot)
    requires DiffersAt(m, m', q)
  {
    forall p: Slot :: p != q && (p.LeafOf? ==> p.y in m.ys) ==> Read(m', p) == Read(m, p)
  }

  lemma SplicedPublished(m: Mem, q: Slot, d: Digest, oh: nat, y2: nat, c: nat)
    requires Published(m) && SlotOK(m, q) && c < 256 && y2 !in m.ys && oh !in m.head
    requires LinkOK(m, Read(m, q), c)
    requires q.LeafOf? ==> m.ys[q.y].critbit < c
    ensures IsSplice(m, Spliced(m, q, d, oh, y2, c), q, Bits(d), oh, y2, c)
  {
    PreparedPublished(m, q, d, oh, y2, c);
    var m1 := Prepared(m, q, d, oh, y2, c);
    WritePublished(m1, q, ToY(y2));
    forall p: Slot | p != q && (p.LeafOf? ==> p.y in m.ys)
      ensures Read(Spliced(m, q, d, oh, y2, c), p) == Read(m, p)
    {
      assert Read(m1, p) == Read(m, p);
    }
  }

  /** `p` lies on the path of `k`, above the splice point for the critical bit `c`. */
  ghost predicate OnPath(m: Mem, p: Slot, k: Key, c: nat) {
    && Published(m) && SlotOK(m, p) && c < 256
    && (p.LeafOf? ==> m.ys[p.y].critbit < c)
    && WellFormed(Unfold(m, Read(m, p)))
    && KeysPartAt(k, Descend(Unfold(m, Read(m, p)), k).d, c)
  }

  lemma {:induction false} SplicePoint(m: Mem, p: Slot, k: Key, c: nat)
    requires OnPath(m, p, k, c)
    ensures var q := SpliceSlot(m, p, k, c);
      && LinkOK(m, Read(m, q), c)
      && (q.LeafOf? ==> m.ys[q.y].critbit < c)
      && (q == p || (q.LeafOf? && q.y in Ys(Unfold(m, Read(m, p)))))
    decreases 256 - Rank(m, Read(m, p))
  {
    var l := Read(m, p);
    if l.ToY? && m.ys[l.y].critbit <= c {
      var p' := PathStep(m, p, k, c);
      SplicePoint(m, p', k, c);
    } else {
      assert SpliceSlot(m, p, k, c) == p;
      assert LinkOK(m, l, c);
    }
  }

  /** Publishing the new node through the splice word inserts into the tree below every word of the
      path. */
  lemma {:induction false} SpliceInserts(m: Mem, m': Mem, p: Slot, k: Key, oh: nat, y2: nat, c: nat)
    requires OnPath(m, p, k, c) && IsSplice(m, m', SpliceSlot(m, p, k, c), k, oh, y2, c)
    ensures SlotOK(m', p) && LinkOK(m', Read(m', p), -1)
    ensures Unfold(m', Read(m', p)) == Insert(Unfold(m, Read(m, p)), k, oh, y2, c)
    decreases 256 - Rank(m, Read(m, p))
  {
    var q := SpliceSlot(m, p, k, c);
    SplicePoint(m, p, k, c);
    if q == p {
      SpliceHere(m, m', p, k, oh, y2, c);
    } else {
      var p' := PathStep(m, p, k, c);
      SplicePoint(m, p', k, c);
      SpliceInserts(m, m', p', k, oh, y2, c);
      ChangeBelow(m, m', p, q, k);
    }
  }

  lemma PathStep(m: Mem, p: Slot, k: Key, c: nat) returns (p': Slot)
    requires OnPath(m, p, k, c)
    requires Read(m, p).ToY? && m.ys[Read(m, p).y].critbit <= c
    ensures p' == LeafOf(Read(m, p).y, k[m.ys[Read(m, p).y].critbit])
    ensures OnPath(m, p', k, c) && SpliceSlot(m, p', k, c) == SpliceSlot(m, p, k, c)
    ensures Rank(m, Read(m, p')) > Rank(m, Read(m, p))
    ensures m.ys[Read(m, p).y].critbit < c
    ensures Ys(Unfold(m, Read(m, p'))) + {p'.y} <= Ys(Unfold(m, Read(m, p)))
  {
    var l := Read(m, p);
    PathAvoidsCritBit(Unfold(m, l), k, c);
    p' := LeafOf(l.y, k[m.ys[l.y].critbit]);
  }

  lemma SpliceHere(m: Mem, m': Mem, p: Slot, k: Key, oh: nat, y2: nat, c: nat)
    requires OnPath(m, p, k, c) && LinkOK(m, Read(m, p), c) && IsSplice(m, m', p, k, oh, y2, c)
    ensures Unfold(m', Read(m', p)) == Insert(Unfold(m, Read(m, p)), k, oh, y2, c)
  {
    var l := Read(m, p);
    if p.LeafOf? && p.y in Ys(Unfold(m, l)) { UnfoldedNodes(m, l, p.y); }
    UnfoldFrame(m, m', l, p);
    UnfoldNewY(m', l, Unfold(m, l), k, oh, y2, c);
  }

  lemma UnfoldNewY(m: Mem, l: Link, t: Tree, k: Key, oh: nat, y2: nat, c: nat)
    requires Published(m) && LinkOK(m, l, -1) && Unfold(m, l) == t && WellFormed(t)
    requires c < 256 && (t.Fork? ==> t.c > c)
    requires y2 in m.ys && m.ys[y2] == NewY(k[c], oh, c, l)
    requires oh in m.head && Bits(m.head[oh]) == k
    ensures Unfold(m, ToY(y2)) == Insert(t, k, oh, y2, c)
  {
    assert Unfold(m, ToNode(oh)) == CritbitTree.Leaf(k, oh);
  }

  /** The child on the other side of a change keeps its tree. */
  lemma OtherChildKept(m: Mem, m': Mem, y: nat, side: bool, q: Slot)
    requires Published(m) && Published(m') && DiffersAt(m, m', q) && y in m.ys && NodeOK(m, m.ys[y])
    requires q.LeafOf? ==> q.y !in Ys(Unfold(m, m.ys[y].Leaf(!side)))
    ensures var l := m.ys[y].Leaf(!side); LinkOK(m', l, -1) && Unfold(m', l) == Unfold(m, l)
  {
    UnfoldFrame(m, m', m.ys[y].Leaf(!side), q);
  }

  /** A change below the child taken by `k` leaves the node and its other child as they were. */
  lemma ChangeBelow(m: Mem, m': Mem, p: Slot, q: Slot, k: Key)
    requires Published(m) && Published(m') && DiffersAt(m, m', q) && SameElsewhere(m, m', q)
    requires SlotOK(m, p) && Read(m, p).ToY? && WellFormed(Unfold(m, Read(m, p)))
    requires p != q && q.LeafOf? && q.y in m.ys
    requires var l := Read(m, p); var side := k[m.ys[l.y].critbit];
      q == LeafOf(l.y, side) || q.y in Ys(Unfold(m, m.ys[l.y].Leaf(side)))
    ensures SlotOK(m', p) && Read(m', p) == Read(m, p)
    ensures var l := Read(m, p); var c := m.ys[l.y].critbit;
      && LinkOK(m', l, -1) && LinkOK(m', m'.ys[l.y].Leaf(k[c]), -1)
      && Unfold(m', l) == (
        if k[c] then Unfold(m, l).(right := Unfold(m', m'.ys[l.y].Leaf(true)))
        else Unfold(m, l).(left := Unfold(m', m'.ys[l.y].Leaf(false))))
  {
    hide Ys, WellFormed;
    var l := Read(m, p);
    assert NodeOK(m, m.ys[l.y]);
    var side := k[m.ys[l.y].critbit];
    SubtreesDisjoint(m, l);
    OtherChildKept(m, m', l.y, side, q);
    assert Read(m', LeafOf(l.y, !side)) == Read(m, LeafOf(l.y, !side));
    assert NodeOK(m', m'.ys[l.y]);
  }

  // ---- removal ----

  /** `p` leads to a branch node on the path of `k`, whose leaf lies below. */
  ghost predicate OnCutPath(m: Mem, p: Slot, k: Key) {
    && Published(m) && SlotOK(m, p) && Read(m, p).ToY?
    && WellFormed(Unfold(m, Read(m, p))) && k in Keys(Unfold(m, Read(m, p)))
  }

  /** The child word a search for `k` reads after the node that `p` leads to. */
  ghost function Below(m: Mem, p: Slot, k: Key): (q: Slot)
    requires Published(m) && SlotOK(m, p) && Read(m, p).ToY?
    ensures SlotOK(m, q)
  {
    assert NodeOK(m, m.ys[Read(m, p).y]);
    LeafOf(Read(m, p).y, k[m.ys[Read(m, p).y].critbit])
  }

  /** The word hcb_delete overwrites: the one that leads to the parent of the leaf of `k`. */
  ghost function CutSlot(m: Mem, p: Slot, k: Key): (q: Slot)
    requires Published(m) && SlotOK(m, p) && Read(m, p).ToY?
    ensures SlotOK(m, q) && Read(m, q).ToY?
    decreases 256 - Rank(m, Read(m, p))
  {
    var p' := Below(m, p, k);
    if Read(m, p').ToY? then CutSlot(m, p', k) else p
  }

  /** What the overwritten word then holds: the other child of the parent. */
  ghost function Sibling(m: Mem, q: Slot, k: Key): Link
    requires Published(m) && SlotOK(m, q) && Read(m, q).ToY?
  {
    var y := m.ys[Read(m, q).y];
    assert NodeOK(m, y);
    y.Leaf(!k[y.critbit])
  }

  lemma CutPathStep(m: Mem, p: Slot, k: Key)
    requires OnCutPath(m, p, k) && Read(m, Below(m, p, k)).ToY?
    ensures OnCutPath(m, Below(m, p, k), k)
    ensures Rank(m, Read(m, Below(m, p, k))) > Rank(m, Read(m, p))
    ensures Ys(Unfold(m, Read(m, Below(m, p, k)))) + {Read(m, p).y} <= Ys(Unfold(m, Read(m, p)))
  {
    ContentsOfChildren(Unfold(m, Read(m, p)));
  }

  lemma {:induction false} CutPoint(m: Mem, p: Slot, k: Key)
    requires OnCutPath(m, p, k)
    ensures var q := CutSlot(m, p, k);
      && (q == p || (q.LeafOf? && q.y in Ys(Unfold(m, Read(m, p)))))
      && Read(m, q).y in Ys(Unfold(m, Read(m, p)))
      && Read(m, Below(m, q, k)).ToNode?
      && Bits(m.head[Read(m, Below(m, q, k)).oh]) == k
      && LinkOK(m, Sibling(m, q, k), if q.LeafOf? then m.ys[q.y].critbit else -1)
    decreases 256 - Rank(m, Read(m, p))
  {
    var l := Read(m, p);
    if Read(m, Below(m, p, k)).ToY? {
      CutPathStep(m, p, k);
      CutPoint(m, Below(m, p, k), k);
    } else {
      assert CutSlot(m, p, k) == p;
      assert k in Keys(Unfold(m, Read(m, Below(m, p, k)))) by { ContentsOfChildren(Unfold(m, l)); }
      LinkRises(m, p, Sibling(m, p, k));
    }
  }

  /** The node cut out is the parent of the leaf of `k`. */
  lemma {:induction false} CutIsParent(m: Mem, p: Slot, k: Key)
    requires OnCutPath(m, p, k)
    ensures Read(m, CutSlot(m, p, k)).y == ParentOf(Unfold(m, Read(m, p)), k)
    decreases 256 - Rank(m, Read(m, p))
  {
    if Read(m, Below(m, p, k)).ToY? {
      CutPathStep(m, p, k);
      CutIsParent(m, Below(m, p, k), k);
    }
  }

  lemma LinkRises(m: Mem, p: Slot, l: Link)
    requires Published(m) && SlotOK(m, p) && Read(m, p).ToY?
    requires LinkOK(m, l, m.ys[Read(m, p).y].critbit)
    ensures LinkOK(m, l, if p.LeafOf? then m.ys[p.y].critbit else -1)
  {
    assert p.LeafOf? ==> NodeOK(m, m.ys[p.y]);
  }

  /** What the removal does to the words of the memory. */
  ghost predicate IsCut(m: Mem, m': Mem, q: Slot, k: Key)
    requires Published(m) && SlotOK(m, q) && Read(m, q).ToY?
  {
    && Published(m') && DiffersAt(m, m', q) && SameElsewhere(m, m', q)
    && SlotOK(m', q) && Read(m', q) == Sibling(m, q, k)
  }

  /** Overwriting the word that leads to the parent deletes from the tree below every word of the
      path, and the parent can no longer be reached. */
  lemma {:induction false} CutDeletes(m: Mem, m': Mem, p: Slot, k: Key)
    requires OnCutPath(m, p, k) && IsCut(m, m', CutSlot(m, p, k), k)
    ensures SlotOK(m', p) && LinkOK(m', Read(m', p), -1)
    ensures Unfold(m', Read(m', p)) == Delete(Unfold(m, Read(m, p)), k)
    ensures Read(m, CutSlot(m, p, k)).y !in Ys(Unfold(m', Read(m', p)))
    decreases 256 - Rank(m, Read(m, p))
  {
    var l := Read(m, p);
    var q := CutSlot(m, p, k);
    CutPoint(m, p, k);
    if Read(m, Below(m, p, k)).ToY? {
      CutPathStep(m, p, k);
      CutPoint(m, Below(m, p, k), k);
      CutDeletes(m, m', Below(m, p, k), k);
      SlotsDiffer(m, p, q);
      ChangeBelow(m, m', p, q, k);
      SubtreesDisjoint(m, l);
    } else {
      SubtreesDisjoint(m, l);
      if p.LeafOf? && p.y in Ys(Unfold(m, l)) { UnfoldedNodes(m, l, p.y); }
      UnfoldFrame(m, m', Sibling(m, p, k), p);
    }
  }

  lemma SlotsDiffer(m: Mem, p: Slot, q: Slot)
    requires Published(m) && SlotOK(m, p) && Read(m, p).ToY?
    requires q.LeafOf? && q.y in Ys(Unfold(m, Read(m, p)))
    ensures p != q
  {
    UnfoldedNodes(m, Read(m, p), q.y);
    assert p.LeafOf? ==> NodeOK(m, m.ys[p.y]);
  }
}
