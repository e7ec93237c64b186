/** The locked operations of the crit-bit index, as steps on its memory and as the methods that walk
    and overwrite its words. */
module Critbit {
  import opened Wrappers
  import opened DigestBits
  import opened CritbitTree
  import opened CritbitMemory

  lemma CritBitExists(d: Digest, e: Digest)
    requires d != e
    ensures exists c :: IsCritBit(d, e, c)
  {
    var c := DifferentDigestsHaveCritBit(d, e);
  }

  lemma CritBitUnique(d: Digest, e: Digest, c: nat, c': nat)
    requires IsCritBit(d, e, c) && IsCritBit(d, e, c')
    ensures c == c'
  {
    assert !(c < c') && !(c' < c);
  }

  ghost function CritBitAgainst(d: Digest, e: Digest): (c: nat)
    requires d != e
    ensures IsCritBit(d, e, c)
  {
    CritBitExists(d, e);
    var c :| IsCritBit(d, e, c);
    c
  }

  /** The head a search for `d` ends at. */
  ghost function Found(m: Mem, d: Digest): (oh: nat)
    requires Valid(m) && !m.origo.Null?
    ensures oh in m.head && Descend(Unfold(m, m.origo), Bits(d)).d == Bits(m.head[oh])
  {
    DescendEndsAtHead(m, m.origo, Bits(d));
    Descend(Unfold(m, m.origo), Bits(d)).oh
  }

  lemma {:induction false} DescendEndsAtHead(m: Mem, l: Link, k: Key)
    requires Published(m) && LinkOK(m, l, -1) && WellFormed(Unfold(m, l))
    ensures var leaf := Descend(Unfold(m, l), k);
      leaf.oh in m.head && leaf.d == Bits(m.head[leaf.oh])
    decreases 256 - Rank(m, l)
  {
    if l.ToY? { DescendEndsAtHead(m, m.ys[l.y].Leaf(k[m.ys[l.y].critbit]), k); }
  }

  /** The index holds the digest of every head it lists. */
  lemma {:induction false} ListedHeads(m: Mem, l: Link, k: Key)
    requires Published(m) && LinkOK(m, l, -1) && WellFormed(Unfold(m, l))
    requires k in Contents(Unfold(m, l))
    ensures var oh := Contents(Unfold(m, l))[k]; oh in m.head && Bits(m.head[oh]) == k
  {
    DescendFinds(Unfold(m, l), k);
    DescendEndsAtHead(m, l, k);
  }

  lemma FoundFinds(m: Mem, d: Digest)
    requires Valid(m) && !m.origo.Null?
    ensures Bits(d) in Index(m) <==> m.head[Found(m, d)] == d
    ensures Bits(m.head[Found(m, d)]) in Index(m)
    ensures Index(m)[Bits(m.head[Found(m, d)])] == Found(m, d)
  {
    DescendFinds(Unfold(m, m.origo), Bits(d));
    if Bits(m.head[Found(m, d)]) == Bits(d) { BitsInjective(m.head[Found(m, d)], d); }
  }

  /** The memory after hcb_insert linked head `oh`, using node `y2` when the tree was not empty. */
  ghost function AfterInsert(m: Mem, d: Digest, oh: nat, y2: nat): Mem
    requires Valid(m) && Bits(d) !in Index(m) && y2 !in m.ys
  {
    if m.origo.Null? then m.(origo := ToNode(oh), head := m.head[oh := d])
    else
      FoundFinds(m, d);
      var c := CritBitAgainst(d, m.head[Found(m, d)]);
      Spliced(m, SpliceSlot(m, Origo, Bits(d), c), d, oh, y2, c)
  }

  lemma InsertFirst(m: Mem, d: Digest, oh: nat)
    requires Valid(m) && m.origo.Null? && oh !in m.head
    ensures var m' := m.(origo := ToNode(oh), head := m.head[oh := d]);
      Valid(m') && Index(m') == Index(m)[Bits(d) := oh] && LiveYs(m') <= LiveYs(m)
  {
    var m' := m.(origo := ToNode(oh), head := m.head[oh := d]);
    forall y | y in m'.ys ensures NodeOK(m', m'.ys[y]) { assert NodeOK(m, m.ys[y]); }
    assert Unfold(m', m'.origo) == CritbitTree.Leaf(Bits(d), oh);
  }

  /** Insertion keeps the index well formed and adds exactly the new head. */
  lemma InsertCorrect(m: Mem, d: Digest, oh: nat, y2: nat)
    requires Valid(m) && Bits(d) !in Index(m) && y2 !in m.ys && oh !in m.head
    ensures var m' := AfterInsert(m, d, oh, y2);
      && Valid(m') && Index(m') == Index(m)[Bits(d) := oh]
      && m'.head == m.head[oh := d]
      && LiveYs(m') <= LiveYs(m) + {y2}
      && (forall y :: y in m.ys ==> y in m'.ys && m'.ys[y].critbit == m.ys[y].critbit)
      && m'.ys.Keys <= m.ys.Keys + {y2}
  {
    hide Ys, WellFormed, SpliceSlot;
    var k := Bits(d);
    var m' := AfterInsert(m, d, oh, y2);
    if m.origo.Null? {
      InsertFirst(m, d, oh);
    } else {
      FoundFinds(m, d);
      var e := m.head[Found(m, d)];
      var c := CritBitAgainst(d, e);
      CritBitOfBits(d, e, c);
      assert OnPath(m, Origo, k, c);
      SplicePoint(m, Origo, k, c);
      SplicedPublished(m, SpliceSlot(m, Origo, k, c), d, oh, y2, c);
      SpliceCorrect(m, m', k, oh, y2, c);
    }
  }

  lemma SpliceCorrect(m: Mem, m': Mem, k: Key, oh: nat, y2: nat, c: nat)
    requires OnPath(m, Origo, k, c) && IsSplice(m, m', SpliceSlot(m, Origo, k, c), k, oh, y2, c)
    ensures Valid(m) && Valid(m') && k !in Index(m) && Index(m') == Index(m)[k := oh]
    ensures LiveYs(m') == LiveYs(m) + {y2}
  {
    var t := Unfold(m, m.origo);
    SpliceInserts(m, m', Origo, k, oh, y2, c);
    InsertKeepsShape(t, k, oh, y2, c);
    InsertContents(t, k, oh, y2, c);
    InsertedKeys(t, k, oh, y2, c);
  }

  /** The memory after hcb_delete unlinked the head for `d`, and the node parked on cool_y, if any. */
  ghost function AfterDelete(m: Mem, d: Digest): (r: (Mem, Option<nat>))
    requires Valid(m) && !m.origo.Null?
  {
    if m.origo.ToNode? then (m.(origo := Null), None)
    else
      var q := CutSlot(m, Origo, Bits(d));
      (Write(m, q, Sibling(m, q, Bits(d))), Some(Read(m, q).y))
  }

  lemma DeleteOnly(m: Mem, k: Key)
    requires Valid(m) && k in Index(m) && m.origo.ToNode?
    ensures var m' := m.(origo := Null);
      Valid(m') && Index(m') == Index(m) - {k} && LiveYs(m') <= LiveYs(m)
  {
    var m' := m.(origo := Null);
    forall y | y in m'.ys ensures NodeOK(m', m'.ys[y]) { assert NodeOK(m, m.ys[y]); }
    assert Index(m) - {k} == map[];
  }

  /** Removal keeps the index well formed, takes out exactly the given digest, and parks a node that
      was live and no longer is. */
  lemma DeleteCorrect(m: Mem, d: Digest)
    requires Valid(m) && Bits(d) in Index(m)
    ensures var (m', parked) := AfterDelete(m, d);
      && Valid(m') && Index(m') == Index(m) - {Bits(d)}
      && m'.head == m.head && m'.ys.Keys == m.ys.Keys
      && (forall y :: y in m.ys ==> m'.ys[y].critbit == m.ys[y].critbit)
      && LiveYs(m') <= LiveYs(m)
      && (parked.Some? ==> parked.value in LiveYs(m) && parked.value !in LiveYs(m'))
  {
    hide CutSlot, Sibling, Ys, Contents, WellFormed, Bits;
    var k := Bits(d);
    if m.origo.ToNode? {
      DeleteOnly(m, k);
    } else {
      var q := CutSlot(m, Origo, k);
      CutCorrect(m, q, Write(m, q, Sibling(m, q, k)), k);
    }
  }

  lemma CutCorrect(m: Mem, q: Slot, m': Mem, k: Key)
    requires Valid(m) && m.origo.ToY? && k in Index(m)
    requires q == CutSlot(m, Origo, k) && m' == Write(m, q, Sibling(m, q, k))
    ensures Valid(m') && Index(m') == Index(m) - {k} && DiffersAt(m, m', q)
    ensures LiveYs(m') <= LiveYs(m)
    ensures Read(m, q).y in LiveYs(m) && Read(m, q).y !in LiveYs(m')
  {
    assert OnCutPath(m, Origo, k);
    CutPoint(m, Origo, k);
    WritePublished(m, q, Sibling(m, q, k));
    assert IsCut(m, m', q, k);
    CutDeletes(m, m', Origo, k);
    var t := Unfold(m, m.origo);
    DeleteKeepsShape(t, k);
    DeleteContents(t, k);
    DeletedKeys(t, k);
  }

  /** What hcb_delete parks on the cool-off list is the parent of the leaf it takes out. */
  lemma ParkedIsParent(m: Mem, d: Digest)
    requires Valid(m) && Bits(d) in Index(m) && m.origo.ToY?
    ensures AfterDelete(m, d).1 == Some(ParentOf(Unfold(m, m.origo), Bits(d)))
  {
    CutIsParent(m, Origo, Bits(d));
  }

  /** Nodes once unlinked stay unlinked. */
  ghost predicate Parked(m: Mem, cool: seq<nat>) {
    && Valid(m)
    && (forall i :: 0 <= i < |cool| ==> cool[i] in m.ys && cool[i] !in LiveYs(m))
    && (forall i, j :: 0 <= i < j < |cool| ==> cool[i] != cool[j])
  }

  lemma KeepParked(m: Mem, m': Mem, cool: seq<nat>, extra: set<nat>)
    requires Parked(m, cool) && Valid(m') && m.ys.Keys <= m'.ys.Keys
    requires LiveYs(m') <= LiveYs(m) + extra && extra !! m.ys.Keys
    ensures Parked(m', cool)
  {
  }

  lemma InsertKeepsParked(m: Mem, d: Digest, oh: nat, y2: nat, cool: seq<nat>)
    requires Parked(m, cool) && Bits(d) !in Index(m) && y2 !in m.ys && oh !in m.head
    ensures var m' := AfterInsert(m, d, oh, y2);
      Parked(m', cool) && Index(m') == Index(m)[Bits(d) := oh]
  {
    InsertCorrect(m, d, oh, y2);
    KeepParked(m, AfterInsert(m, d, oh, y2), cool, {y2});
  }

  lemma DeleteKeepsParked(m: Mem, d: Digest, cool: seq<nat>)
    requires Parked(m, cool) && Bits(d) in Index(m)
    ensures var (m', parked) := AfterDelete(m, d);
      && Valid(m') && Index(m') == Index(m) - {Bits(d)}
      && Parked(m', cool + if parked.Some? then [parked.value] else [])
  {
    DeleteCorrect(m, d);
    var (m', parked) := AfterDelete(m, d);
    match parked {
      case None =>
        KeepParked(m, m', cool, {});
        assert cool + [] == cool;
      case Some(y) => Park(m, m', cool, y);
    }
  }

  lemma Park(m: Mem, m': Mem, cool: seq<nat>, y: nat)
    requires Parked(m, cool) && Valid(m') && m.ys.Keys == m'.ys.Keys && LiveYs(m') <= LiveYs(m)
    requires y in LiveYs(m) && y !in LiveYs(m')
    ensures Parked(m', cool + [y])
  {
    LiveNodes(m, y);
  }

  lemma LiveNodes(m: Mem, y: nat)
    requires Valid(m) && y in LiveYs(m)
    ensures y in m.ys
  {
    UnfoldedNodes(m, m.origo, y);
  }

  class HcbRoot {
    var origo: Link
    var ys: map<nat, HcbY>
    /** Digests of the heads linked so far, by head. */
    var head: map<nat, Digest>
    /** Unlinked branch nodes, oldest first. */
    var coolY: seq<nat>
    const tbl: array<nat>

    ghost function M(): Mem reads this { Mem(origo, ys, head) }

    ghost predicate TableOK() reads tbl {
      tbl.Length == 256 && forall z :: 0 <= z < 256 ==> tbl[z] == LeadingZeros(z)
    }

    /** The tree is well formed, and a parked node is parked once and cannot be reached. */
    ghost predicate Inv() reads this, tbl {
      TableOK() && Parked(M(), coolY)
    }

    constructor ()
      ensures Inv() && fresh(tbl) && Index(M()) == map[] && coolY == []
    {
      origo, ys, head, coolY := Null, map[], map[], [];
      var t := BuildBitTable();
      tbl := t;
    }

    /** hcb_insert: finds the head for `d`, or links `oh` when the lock is held. The worker's spare
        node `y2` is used only when a branch is needed. */
    method Insert(d: Digest, oh: nat, y2: nat, hasLock: bool) returns (r: Option<nat>)
      requires Inv()
      requires oh !in head && y2 !in ys
      modifies this`origo, this`ys, this`head
      ensures Inv()
      ensures Bits(d) in old(Index(M())) ==> r == Some(old(Index(M()))[Bits(d)]) && M() == old(M())
      ensures Bits(d) !in old(Index(M())) && !hasLock ==> r == None && M() == old(M())
      ensures Bits(d) !in old(Index(M())) && hasLock ==> r == Some(oh)
      ensures Bits(d) !in old(Index(M())) && hasLock ==> M() == AfterInsert(old(M()), d, oh, y2)
      ensures Bits(d) !in old(Index(M())) && hasLock ==>
        Index(M()) == old(Index(M()))[Bits(d) := oh]
    {
      var pp := origo;
      if pp == Null {
        if !hasLock { return None; }
        InsertKeepsParked(M(), d, oh, y2, coolY);
        origo, head := ToNode(oh), head[oh := d];
        return Some(oh);
      }
      var oh2 := Walk(d);
      FoundFinds(M(), d);
      if head[oh2] == d { return Some(oh2); }
      if !hasLock { return None; }
      InsertKeepsParked(M(), d, oh, y2, coolY);
      Splice(d, oh, y2, oh2);
      r := Some(oh);
    }

    method Splice(d: Digest, oh: nat, y2: nat, oh2: nat)
      requires Inv() && !origo.Null? && oh !in head && y2 !in ys
      requires oh2 == Found(M(), d) && head[oh2] != d && Bits(d) !in Index(M())
      modifies this`origo, this`ys, this`head
      ensures M() == AfterInsert(old(M()), d, oh, y2)
    {
      var ptr, bitmask, critbit := CritBit(tbl, d, head[oh2]);
      CritBitUnique(d, head[oh2], critbit, CritBitAgainst(d, head[oh2]));
      var s2 := d[ptr] & bitmask != 0;
      assert s2 == Bits(d)[critbit];
      var p := FindSplice(d, critbit, oh2);
      var rest := ReadSlot(p);
      ys := ys[y2 := if s2 then HcbY(critbit, ptr, bitmask, rest, ToNode(oh))
                     else HcbY(critbit, ptr, bitmask, ToNode(oh), rest)];
      head := head[oh := d];
      WriteSlot(p, ToY(y2));
    }

    /** The first descent: follow the bits of `d` from the root word to a head. */
    method Walk(d: Digest) returns (oh2: nat)
      requires Inv() && !origo.Null?
      ensures oh2 == Found(M(), d)
    {
      ghost var m := M();
      var pp := origo;
      while pp.ToY?
        invariant LinkOK(m, pp, -1) && WellFormed(Unfold(m, pp))
        invariant Descend(Unfold(m, pp), Bits(d)) == Descend(Unfold(m, m.origo), Bits(d))
        decreases 256 - Rank(m, pp)
      {
        var y := ys[pp.y];
        assert NodeOK(m, y);
        var s := Direction(y, d);
        DirectionIsBit(m, y, d);
        pp := y.Leaf(s);
      }
      oh2 := pp.oh;
    }

    /** The second descent: the word where the new node is spliced in. */
    method FindSplice(d: Digest, critbit: nat, ghost oh2: nat) returns (p: Slot)
      requires Inv() && !origo.Null?
      requires oh2 == Found(M(), d) && IsCritBit(d, head[oh2], critbit)
      ensures p == SpliceSlot(M(), Origo, Bits(d), critbit)
      ensures p.LeafOf? ==> p.y in ys
    {
      ghost var m := M();
      ghost var k := Bits(d);
      p := Origo;
      assert OnPath(m, p, k, critbit) by { CritBitOfBits(d, head[oh2], critbit); }
      while ReadSlot(p).ToY?
        invariant OnPath(m, p, k, critbit)
        invariant SpliceSlot(m, p, k, critbit) == SpliceSlot(m, Origo, k, critbit)
        decreases 256 - Rank(m, Read(m, p))
      {
        var y := ys[ReadSlot(p).y];
        assert y.critbit != critbit by { PathAvoidsCritBit(Unfold(m, Read(m, p)), k, critbit); }
        if y.critbit > critbit { break; }
        ghost var p' := PathStep(m, p, k, critbit);
        var s := Direction(y, d);
        DirectionIsBit(m, y, d);
        p := LeafOf(ReadSlot(p).y, s);
      }
    }

    /** hcb_delete: unlinks the head for `d` and parks its parent node. */
    method Delete(d: Digest, oh: nat)
      requires Inv()
      requires Bits(d) in Index(M()) && Index(M())[Bits(d)] == oh
      modifies this`origo, this`ys, this`coolY
      ensures Inv()
      ensures M() == AfterDelete(old(M()), d).0
      ensures Index(M()) == old(Index(M())) - {Bits(d)}
      ensures var parked := AfterDelete(old(M()), d).1;
        coolY == old(coolY) + if parked.Some? then [parked.value] else []
    {
      DeleteKeepsParked(M(), d, coolY);
      if origo == ToNode(oh) {
        origo := Null;
        return;
      }
      ListedHeads(M(), M().origo, Bits(d));
      var p, yid := FindParent(d, oh);
      WriteSlot(p, ys[yid].Leaf(!Direction(ys[yid], d)));
      coolY := coolY + [yid];
    }

    /** The descent of hcb_delete: the word that leads to the node with the leaf for `oh`. */
    method FindParent(d: Digest, oh: nat) returns (p: Slot, yid: nat)
      requires Inv() && origo.ToY?
      requires Bits(d) in Index(M()) && Index(M())[Bits(d)] == oh
      ensures p == CutSlot(M(), Origo, Bits(d)) && (p.LeafOf? ==> p.y in ys)
      ensures yid in ys && NodeOK(M(), ys[yid])
      ensures Read(M(), p) == ToY(yid)
      ensures ys[yid].Leaf(!Direction(ys[yid], d)) == Sibling(M(), p, Bits(d))
    {
      ghost var m := M();
      ghost var k := Bits(d);
      p := Origo;
      while true
        invariant OnCutPath(m, p, k) && Contents(Unfold(m, Read(m, p)))[k] == oh
        invariant CutSlot(m, p, k) == CutSlot(m, Origo, k)
        decreases 256 - Rank(m, Read(m, p))
      {
        yid := ReadSlot(p).y;
        var y := ys[yid];
        assert NodeOK(m, y);
        var s := Direction(y, d);
        DirectionIsBit(m, y, d);
        LeafOnCutPath(m, p, k, oh);
        if y.Leaf(s) == ToNode(oh) { return; }
        CutPathStep(m, p, k);
        p := LeafOf(yid, s);
      }
    }

    function ReadSlot(p: Slot): Link
      requires p.LeafOf? ==> p.y in ys
      reads this
    {
      match p
      case Origo => origo
      case LeafOf(y, s) => ys[y].Leaf(s)
    }

    method WriteSlot(p: Slot, l: Link)
      requires p.LeafOf? ==> p.y in ys
      modifies this`origo, this`ys
      ensures M() == Write(old(M()), p, l)
    {
      match p {
        case Origo => origo := l;
        case LeafOf(y, s) =>
          ys := ys[y := if s then ys[y].(leaf1 := l) else ys[y].(leaf0 := l)];
      }
    }
  }

  /** On the way to the leaf of `k`, the child taken either is that leaf or branches further. */
  lemma LeafOnCutPath(m: Mem, p: Slot, k: Key, oh: nat)
    requires OnCutPath(m, p, k) && Contents(Unfold(m, Read(m, p)))[k] == oh
    ensures var l := Read(m, Below(m, p, k));
      && LinkOK(m, l, -1) && (l.ToNode? <==> l == ToNode(oh))
      && k in Contents(Unfold(m, l)) && Contents(Unfold(m, l))[k] == oh
  {
    ContentsOfChildren(Unfold(m, Read(m, p)));
  }
}
