/** The reference index: a list of object heads sorted by digest. */
module SimpleList {
  import opened DigestBits
  import opened HeadIndex

  datatype Head = Head(digest: Digest, oh: nat, refcnt: nat)

  /** `u` is where memcmp decides: the digests agree before it and differ at it. */
  ghost predicate DecidedAt(a: Digest, b: Digest, u: nat) {
    u < DIGEST_LEN && a[..u] == b[..u] && a[u] != b[u]
  }

  ghost predicate Less(a: Digest, b: Digest) {
    exists u: nat :: DecidedAt(a, b, u) && a[u] < b[u]
  }

  /** memcmp over two digests. */
  method Memcmp(a: Digest, b: Digest) returns (i: int)
    ensures i < 0 <==> Less(a, b)
    ensures i > 0 <==> Less(b, a)
    ensures i == 0 <==> a == b
  {
    var u := 0;
    while u < DIGEST_LEN && a[u] == b[u]
      invariant 0 <= u <= DIGEST_LEN && a[..u] == b[..u]
    {
      u := u + 1;
    }
    if u == DIGEST_LEN {
      assert a == b by { assert a == a[..u] && b == b[..u]; }
      return 0;
    }
    assert DecidedAt(a, b, u) && DecidedAt(b, a, u);
    LessAt(a, b, u);
    LessAt(b, a, u);
    i := if a[u] < b[u] then -1 else 1;
  }

  lemma NotDecidedEarlier(a: Digest, b: Digest, u: nat, v: nat)
    requires DecidedAt(a, b, u) && v < u
    ensures !DecidedAt(a, b, v)
  {
    assert a[v] == a[..u][v] && b[v] == b[..u][v];
  }

  /** The first difference is unique, so it alone decides the order. */
  lemma LessAt(a: Digest, b: Digest, u: nat)
    requires DecidedAt(a, b, u)
    ensures Less(a, b) <==> a[u] < b[u]
    ensures a != b
  {
    forall v: nat | v < u ensures !DecidedAt(a, b, v) { NotDecidedEarlier(a, b, u, v); }
    forall v: nat | u < v ensures !DecidedAt(a, b, v) {
      if DecidedAt(a, b, v) { NotDecidedEarlier(a, b, v, u); }
    }
  }

  lemma LessTransitive(a: Digest, b: Digest, c: Digest)
    requires Less(a, b) && Less(b, c)
    ensures Less(a, c)
  {
    var u: nat :| DecidedAt(a, b, u) && a[u] < b[u];
    var v: nat :| DecidedAt(b, c, v) && b[v] < c[v];
    var w := if u < v then u else v;
    assert a[..w] == a[..u][..w] && b[..w] == b[..u][..w];
    assert b[..w] == b[..v][..w] && c[..w] == c[..v][..w];
    if u < v { assert b[u] == b[..v][u] && c[u] == c[..v][u]; }
    if v < u { assert a[v] == a[..u][v] && b[v] == b[..u][v]; }
    assert DecidedAt(a, c, w);
  }

  ghost predicate Sorted(list: seq<Head>) {
    forall i, j :: 0 <= i < j < |list| ==> Less(list[i].digest, list[j].digest)
  }

  /** Every element of the list is in the index as it stands in the list. */
  ghost predicate Listed(list: seq<Head>, ix: Index) {
    forall h :: h in list ==> h.digest in ix && ix[h.digest] == Entry(h.oh, h.refcnt)
  }

  /** Every digest of the index is in the list. */
  ghost predicate Covered(list: seq<Head>, ix: Index) {
    forall d :: d in ix ==> exists h :: h in list && h.digest == d
  }

  ghost predicate Represents(list: seq<Head>, ix: Index) {
    Listed(list, ix) && Covered(list, ix)
  }

  /** Where the search stops: at the first element that is not smaller. */
  ghost function Place(list: seq<Head>, d: Digest): (i: nat)
    ensures i <= |list|
  {
    if list == [] || !Less(list[0].digest, d) then 0 else 1 + Place(list[1..], d)
  }

  /** The list after a lookup, and the head it returns. */
  ghost function Looked(list: seq<Head>, d: Digest, noh: nat): (seq<Head>, nat) {
    var i := Place(list, d);
    if i < |list| && list[i].digest == d
    then (list[i := list[i].(refcnt := list[i].refcnt + 1)], list[i].oh)
    else (list[..i] + [Head(d, noh, 1)] + list[i..], noh)
  }

  /** The list after a reference to the element at `i` is dropped. */
  function Dropped(list: seq<Head>, i: nat): seq<Head>
    requires i < |list| && list[i].refcnt > 0
  {
    if list[i].refcnt == 1 then list[..i] + list[i + 1..]
    else list[i := list[i].(refcnt := list[i].refcnt - 1)]
  }

  lemma {:induction false} PlaceIs(list: seq<Head>, d: Digest, i: nat)
    requires i <= |list| && (forall j :: 0 <= j < i ==> Less(list[j].digest, d))
    requires i < |list| ==> !Less(list[i].digest, d)
    ensures Place(list, d) == i
  {
    if i > 0 { PlaceIs(list[1..], d, i - 1); }
  }

  lemma {:induction false} PlaceSplits(list: seq<Head>, d: Digest)
    ensures var i := Place(list, d);
      (forall j :: 0 <= j < i ==> Less(list[j].digest, d)) && (i < |list| ==> !Less(list[i].digest, d))
  {
    if list != [] && Less(list[0].digest, d) {
      PlaceSplits(list[1..], d);
      forall j | 0 <= j < Place(list, d) ensures Less(list[j].digest, d) {
        if j > 0 { assert list[j] == list[1..][j - 1]; }
      }
    }
  }

  /** Two different digests are in order one way or the other. */
  lemma LessTotal(a: Digest, b: Digest)
    ensures Less(a, b) || Less(b, a) || a == b
  {
    if a != b { DifferAt(a, b, DIGEST_LEN); }
  }

  lemma {:induction false} DifferAt(a: Digest, b: Digest, n: nat)
    requires n <= DIGEST_LEN && a[..n] != b[..n]
    ensures Less(a, b) || Less(b, a)
  {
    assert a[..n] == a[..n - 1] + [a[n - 1]] && b[..n] == b[..n - 1] + [b[n - 1]];
    if a[..n - 1] != b[..n - 1] { DifferAt(a, b, n - 1); }
    else { assert DecidedAt(a, b, n - 1) && DecidedAt(b, a, n - 1); }
  }

  /** A lookup on the list is a lookup on the index it stands for. */
  lemma LookedRepresents(list: seq<Head>, ix: Index, d: Digest, noh: nat)
    requires Sorted(list) && Represents(list, ix)
    ensures var (list', oh) := Looked(list, d, noh); var (ix', oh') := HeadIndex.Lookup(ix, d, noh);
      Sorted(list') && Represents(list', ix') && oh == oh'
  {
    hide Less, Sorted, Covered;
    var i := Place(list, d);
    PlaceSplits(list, d);
    if i < |list| { LessTotal(list[i].digest, d); }
    if i < |list| && list[i].digest == d { Referenced(list, i, ix, noh); }
    else { InsertBefore(list, i, Head(d, noh, 1), ix); }
  }

  /** So is dropping a reference. */
  lemma DroppedRepresents(list: seq<Head>, ix: Index, i: nat)
    requires Sorted(list) && Represents(list, ix) && i < |list| && list[i].refcnt > 0
    ensures var d := list[i].digest;
      && d in ix && ix[d].refcnt > 0
      && Sorted(Dropped(list, i)) && Represents(Dropped(list, i), HeadIndex.Deref(ix, d))
  {
    hide Less, Sorted, Covered;
    DropReference(list, i, ix);
  }

  class HslHead {
    var list: seq<Head>
    ghost var index: Index

    ghost predicate Valid() reads this {
      Sorted(list) && Represents(list, index)
    }

    constructor ()
      ensures Valid() && index == map[]
    {
      list, index := [], map[];
    }

    /** The search loop: walk until the digest is met or passed. */
    method Scan(d: Digest) returns (i: nat, hit: bool)
      requires Valid()
      ensures i <= |list|
      ensures forall j :: 0 <= j < i ==> Less(list[j].digest, d)
      ensures hit ==> i < |list| && list[i].digest == d
      ensures !hit && i < |list| ==> Less(d, list[i].digest)
      ensures i == Place(list, d) && (hit <==> i < |list| && list[i].digest == d)
    {
      hide Less, Place, Sorted, Represents;
      i, hit := 0, false;
      while i < |list|
        invariant 0 <= i <= |list|
        invariant forall j :: 0 <= j < i ==> Less(list[j].digest, d)
      {
        var c := Memcmp(list[i].digest, d);
        if c >= 0 {
          PlaceIs(list, d, i);
          return i, c == 0;
        }
        i := i + 1;
      }
      PlaceIs(list, d, i);
    }

    /** hsl_lookup: take a reference to the head found, or insert in front of the first larger one. */
    method Lookup(d: Digest, noh: nat) returns (oh: nat)
      requires Valid()
      modifies this
      ensures Valid()
      ensures (list, oh) == Looked(old(list), d, noh)
      ensures (index, oh) == HeadIndex.Lookup(old(index), d, noh)
    {
      var i, hit := Scan(d);
      LookedRepresents(list, index, d, noh);
      hide Less, Sorted, Covered, Place;
      if hit {
        list := list[i := list[i].(refcnt := list[i].refcnt + 1)];
        oh := list[i].oh;
      } else {
        list := list[..i] + [Head(d, noh, 1)] + list[i..];
        oh := noh;
      }
      index := HeadIndex.Lookup(index, d, noh).0;
    }

    /** hsl_deref of the list element at `i`; hsl_deref is handed a pointer to it. */
    method Deref(i: nat) returns (ret: bool)
      requires Valid() && i < |list| && list[i].refcnt > 0
      modifies this
      ensures Valid()
      ensures list == Dropped(old(list), i)
      ensures index == HeadIndex.Deref(old(index), old(list[i].digest))
      ensures ret <==> old(list[i].digest) in index
    {
      ghost var d := list[i].digest;
      DropReference(list, i, index);
      if list[i].refcnt == 1 {
        list := list[..i] + list[i + 1..];
        ret := false;
      } else {
        list := list[i := list[i].(refcnt := list[i].refcnt - 1)];
        ret := true;
      }
      index := HeadIndex.Deref(index, d);
    }
  }

  /** One more reference to the element at `i`. */
  lemma Referenced(list: seq<Head>, i: nat, ix: Index, noh: nat)
    requires Sorted(list) && Represents(list, ix) && i < |list|
    ensures var n := list[i].(refcnt := list[i].refcnt + 1);
      && Sorted(list[i := n]) && Represents(list[i := n], HeadIndex.Lookup(ix, n.digest, noh).0)
      && HeadIndex.Lookup(ix, n.digest, noh).1 == n.oh
  {
    assert list[i] in list;
    Replace(list, i, list[i].(refcnt := list[i].refcnt + 1), ix);
  }

  lemma LessIrreflexive(a: Digest)
    ensures !Less(a, a)
  {
  }

  lemma DigestsDiffer(list: seq<Head>, i: nat, j: nat)
    requires Sorted(list) && i < |list| && j < |list| && i != j
    ensures list[i].digest != list[j].digest
  {
    LessIrreflexive(list[i].digest);
    assert if i < j then Less(list[i].digest, list[j].digest) else Less(list[j].digest, list[i].digest);
  }

  /** Changing the count of the element at `i`. */
  lemma Replace(list: seq<Head>, i: nat, n: Head, ix: Index)
    requires Sorted(list) && Represents(list, ix) && i < |list|
    requires n.digest == list[i].digest
    ensures Sorted(list[i := n]) && Represents(list[i := n], ix[n.digest := Entry(n.oh, n.refcnt)])
  {
    var list' := list[i := n];
    forall h | h in list' && h != n ensures h in list && h.digest != n.digest {
      var j: nat :| j < |list'| && list'[j] == h;
      DigestsDiffer(list, i, j);
    }
    forall d | d in ix ensures exists h :: h in list' && h.digest == d {
      var j: nat :| j < |list| && list[j].digest == d;
      assert list'[j] in list';
    }
  }

  lemma InsertBefore(list: seq<Head>, i: nat, n: Head, ix: Index)
    requires Sorted(list) && Represents(list, ix) && i <= |list|
    requires forall j :: 0 <= j < i ==> Less(list[j].digest, n.digest)
    requires i < |list| ==> Less(n.digest, list[i].digest)
    ensures n.digest !in ix
    ensures var list' := list[..i] + [n] + list[i..];
      Sorted(list') && Represents(list', ix[n.digest := Entry(n.oh, n.refcnt)])
  {
    forall j | i < j < |list| ensures Less(n.digest, list[j].digest) {
      LessTransitive(n.digest, list[i].digest, list[j].digest);
    }
    assert forall h :: h in list ==> h.digest != n.digest by { LessIrreflexive(n.digest); }
    InsertSorted(list, i, n);
    var list' := list[..i] + [n] + list[i..];
    SameMembers(list, i, n);
    MoreCovered(list, list', ix, n);
  }

  lemma SameMembers(list: seq<Head>, i: nat, n: Head)
    requires i <= |list|
    ensures forall h :: h in list[..i] + [n] + list[i..] <==> h == n || h in list
  {
    assert list == list[..i] + list[i..];
  }

  lemma MoreCovered(list: seq<Head>, list': seq<Head>, ix: Index, n: Head)
    requires Covered(list, ix) && forall h :: h in list' <==> h == n || h in list
    ensures Covered(list', ix[n.digest := Entry(n.oh, n.refcnt)])
  {
    forall d | d in ix ensures exists h :: h in list' && h.digest == d {
      var h :| h in list && h.digest == d;
      assert h in list';
    }
  }

  lemma InsertSorted(list: seq<Head>, i: nat, n: Head)
    requires Sorted(list) && i <= |list|
    requires forall j :: 0 <= j < i ==> Less(list[j].digest, n.digest)
    requires forall j :: i <= j < |list| ==> Less(n.digest, list[j].digest)
    ensures Sorted(list[..i] + [n] + list[i..])
  {
  }

  lemma DropReference(list: seq<Head>, i: nat, ix: Index)
    requires Sorted(list) && Represents(list, ix) && i < |list| && list[i].refcnt > 0
    ensures var d := list[i].digest; var n := list[i].(refcnt := list[i].refcnt - 1);
      && d in ix && ix[d].refcnt == list[i].refcnt
      && (if n.refcnt == 0 then
            Sorted(list[..i] + list[i + 1..])
            && Represents(list[..i] + list[i + 1..], HeadIndex.Deref(ix, d))
          else
            Sorted(list[i := n]) && Represents(list[i := n], HeadIndex.Deref(ix, d)))
  {
    var n := list[i].(refcnt := list[i].refcnt - 1);
    assert list[i] in list;
    if n.refcnt == 0 { Remove(list, i, ix); } else { Replace(list, i, n, ix); }
  }

  lemma Remove(list: seq<Head>, i: nat, ix: Index)
    requires Sorted(list) && Represents(list, ix) && i < |list|
    ensures var list' := list[..i] + list[i + 1..];
      Sorted(list') && Represents(list', ix - {list[i].digest})
  {
    var list' := list[..i] + list[i + 1..];
    var d0 := list[i].digest;
    forall k | 0 <= k < |list'| ensures list'[k] in list && list'[k].digest != d0 {
      DigestsDiffer(list, i, if k < i then k else k + 1);
    }
    RemoveCovered(list, i, ix);
  }

  lemma RemoveCovered(list: seq<Head>, i: nat, ix: Index)
    requires Covered(list, ix) && i < |list|
    ensures Covered(list[..i] + list[i + 1..], ix - {list[i].digest})
  {
    var list' := list[..i] + list[i + 1..];
    assert list == list[..i] + [list[i]] + list[i + 1..];
    forall d | d in ix && d != list[i].digest ensures exists h :: h in list' && h.digest == d {
      var h :| h in list && h.digest == d;
      assert h in list';
    }
  }
}
