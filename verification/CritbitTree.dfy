/** The shape a crit-bit index must have, and what insertion and removal do to its contents. */
module CritbitTree {

  /** A digest as the string of its bits, most significant bit of the first byte first. */
  type Key = k: seq<bool> | |k| == 256 witness seq(256, _ => false)

  /** The nodes reachable from a link: `y` and `oh` name the records of the index memory. */
  datatype Tree =
    | Leaf(d: Key, oh: nat)
    | Fork(c: nat, y: nat, left: Tree, right: Tree)

  function Keys(t: Tree): (ds: set<Key>)
    ensures ds != {}
  {
    match t
    case Leaf(d, _) => {d}
    case Fork(_, _, l, r) => assert Keys(l) <= Keys(l) + Keys(r); Keys(l) + Keys(r)
  }

  function Ys(t: Tree): set<nat> {
    match t
    case Leaf(_, _) => {}
    case Fork(_, y, l, r) => {y} + Ys(l) + Ys(r)
  }

  /** The index as a map from key to object head. */
  function Contents(t: Tree): (m: map<Key, nat>)
    ensures m.Keys == Keys(t)
  {
    match t
    case Leaf(d, oh) => map[d := oh]
    case Fork(_, _, l, r) => Contents(l) + Contents(r)
  }

  /** `c` is the first position where the two keys differ. */
  ghost predicate KeysPartAt(d: Key, e: Key, c: nat) {
    c < 256 && d[..c] == e[..c] && d[c] != e[c]
  }

  /** All keys agree before bit `c`. */
  ghost predicate AgreeAll(ds: set<Key>, c: nat)
    requires c <= 256
  {
    forall d, e :: d in ds && e in ds ==> d[..c] == e[..c]
  }

  ghost predicate AllBit(ds: set<Key>, c: nat, b: bool)
    requires c < 256
  {
    forall d :: d in ds ==> d[c] == b
  }

  /** Critical bits grow along every path; below a node all digests agree on every earlier bit and
      branch on the node's own bit. */
  ghost predicate WellFormed(t: Tree) {
    match t
    case Leaf(_, _) => true
    case Fork(c, _, l, r) =>
      && c < 256
      && WellFormed(l) && WellFormed(r)
      && (l.Fork? ==> c < l.c) && (r.Fork? ==> c < r.c)
      && AllBit(Keys(l), c, false) && AllBit(Keys(r), c, true)
      && AgreeAll(Keys(t), c)
  }

  /** The child of a node that a search for `d` takes. */
  function Child(t: Tree, d: Key): Tree
    requires t.Fork? && t.c < 256
  {
    if d[t.c] then t.right else t.left
  }

  /** The leaf a search for `d` ends in, whether or not it matches. */
  function Descend(t: Tree, d: Key): (leaf: Tree)
    requires WellFormed(t)
    ensures leaf.Leaf?
  {
    if t.Leaf? then t else Descend(Child(t, d), d)
  }

  /** A search ends in a leaf of the tree, and finds `d` exactly when the tree holds it. */
  lemma {:induction false} DescendFinds(t: Tree, d: Key)
    requires WellFormed(t)
    ensures var leaf := Descend(t, d);
      leaf.d in Contents(t) && Contents(t)[leaf.d] == leaf.oh
      && (d in Contents(t) <==> leaf.d == d)
  {
    if t.Fork? {
      DescendFinds(Child(t, d), d);
      ContentsOfChildren(t);
    }
  }

  lemma ContentsOfChildren(t: Tree)
    requires WellFormed(t) && t.Fork?
    ensures Keys(t.left) !! Keys(t.right)
    ensures forall d :: d in Keys(t.left) ==> Contents(t)[d] == Contents(t.left)[d]
    ensures forall d :: d in Keys(t.right) ==> Contents(t)[d] == Contents(t.right)[d]
  {
    forall d | d in Keys(t.left) ensures d !in Keys(t.right) {
      assert !d[t.c];
    }
  }

  /** Where the new node goes: above the first node of the path of `d` whose bit exceeds `c`. */
  function Insert(t: Tree, d: Key, oh: nat, y: nat, c: nat): Tree
    requires WellFormed(t) && c < 256
  {
    if t.Leaf? || t.c > c then
      if d[c] then Fork(c, y, t, Leaf(d, oh)) else Fork(c, y, Leaf(d, oh), t)
    else if d[t.c] then t.(right := Insert(t.right, d, oh, y, c))
    else t.(left := Insert(t.left, d, oh, y, c))
  }

  /** Keys that agree before `c` with a leaf below `t` agree with everything below `t`, as long as
      `t` branches later than `c`. */
  lemma AgreesBelow(t: Tree, d: Key, e: Key, c: nat)
    requires WellFormed(t) && e in Keys(t) && KeysPartAt(d, e, c)
    requires t.Fork? ==> c < t.c
    ensures forall k :: k in Keys(t) ==> k[..c] == d[..c] && k[c] == e[c]
  {
    forall k | k in Keys(t) ensures k[..c] == d[..c] && k[c] == e[c] {
      if t.Fork? {
        assert k[..t.c] == e[..t.c];
        assert k[..c] == k[..t.c][..c] && e[..c] == e[..t.c][..c];
        assert k[c] == k[..t.c][c] && e[c] == e[..t.c][c];
      }
    }
  }

  /** The search for `d` agrees with `d` on the bit of every node it passes, so no node of the path
      carries the critical bit `c` of `d` against the leaf found. */
  lemma {:induction false} PathAvoidsCritBit(t: Tree, d: Key, c: nat)
    requires WellFormed(t) && t.Fork? && KeysPartAt(d, Descend(t, d).d, c)
    ensures t.c != c
  {
    DescendFinds(Child(t, d), d);
  }

  /** Replacing the child that a search for `d` takes, by a tree with no keys beyond those of the
      child and a key that agrees with them, keeps the shape. */
  lemma ReplaceChild(t: Tree, d: Key, child': Tree)
    requires WellFormed(t) && t.Fork? && WellFormed(child')
    requires Keys(child') <= Keys(Child(t, d)) + {d}
    requires d in Keys(child') ==> exists e :: e in Keys(t) && d[..t.c] == e[..t.c]
    requires child'.Fork? ==> t.c < child'.c
    ensures WellFormed(if d[t.c] then t.(right := child') else t.(left := child'))
  {
    var t' := if d[t.c] then t.(right := child') else t.(left := child');
    var rep :| rep in Keys(t);
    forall k | k in Keys(t') ensures k[..t.c] == rep[..t.c] {
      if k == d {
        var e :| e in Keys(t) && (k in Keys(t) || k[..t.c] == e[..t.c]);
      }
    }
  }

  lemma {:induction false} InsertedKeys(t: Tree, d: Key, oh: nat, y: nat, c: nat)
    requires WellFormed(t) && c < 256
    ensures Keys(Insert(t, d, oh, y, c)) == Keys(t) + {d}
    ensures Ys(Insert(t, d, oh, y, c)) == Ys(t) + {y}
  {
    if !(t.Leaf? || t.c > c) {
      InsertedKeys(Child(t, d), d, oh, y, c);
    }
  }

  lemma AgreesAbove(t: Tree, d: Key, c: nat)
    requires WellFormed(t) && t.Fork? && t.c < c && KeysPartAt(d, Descend(t, d).d, c)
    ensures exists e :: e in Keys(t) && d[..t.c] == e[..t.c]
  {
    var leaf := Descend(t, d);
    DescendFinds(t, d);
    assert d[..t.c] == d[..c][..t.c] && leaf.d[..t.c] == leaf.d[..c][..t.c];
  }

  /** The critical bit against the leaf found by the search is the critical bit against everything
      below the splice point, so inserting there keeps the shape. */
  lemma {:induction false} InsertKeepsShape(t: Tree, d: Key, oh: nat, y: nat, c: nat)
    requires WellFormed(t)
    requires KeysPartAt(d, Descend(t, d).d, c)
    ensures var t' := Insert(t, d, oh, y, c);
      WellFormed(t') && t'.Fork? && (t'.c == if t.Fork? && t.c < c then t.c else c)
  {
    if t.Leaf? || t.c > c {
      DescendFinds(t, d);
      AgreesBelow(t, d, Descend(t, d).d, c);
    } else {
      PathAvoidsCritBit(t, d, c);
      var child := Child(t, d);
      InsertKeepsShape(child, d, oh, y, c);
      InsertedKeys(child, d, oh, y, c);
      AgreesAbove(t, d, c);
      ReplaceChild(t, d, Insert(child, d, oh, y, c));
    }
  }

  lemma AddToUnion(a: map<Key, nat>, b: map<Key, nat>, d: Key, oh: nat)
    ensures a + b[d := oh] == (a + b)[d := oh]
    ensures d !in b ==> a[d := oh] + b == (a + b)[d := oh]
    ensures a + map[d := oh] == a[d := oh]
    ensures d !in a ==> map[d := oh] + a == a[d := oh]
  {
  }

  /** Insertion adds exactly the new key. */
  lemma {:induction false} InsertContents(t: Tree, d: Key, oh: nat, y: nat, c: nat)
    requires WellFormed(t)
    requires KeysPartAt(d, Descend(t, d).d, c)
    ensures d !in Contents(t)
    ensures Contents(Insert(t, d, oh, y, c)) == Contents(t)[d := oh]
  {
    DescendFinds(t, d);
    AddToUnion(Contents(t), Contents(t), d, oh);
    if !(t.Leaf? || t.c > c) {
      InsertContents(Child(t, d), d, oh, y, c);
      AddToUnion(Contents(t.left), Contents(t.right), d, oh);
    }
  }

  /** Removal of the leaf for `d`: its parent is replaced by the leaf's sibling. */
  function Delete(t: Tree, d: Key): Tree
    requires WellFormed(t) && t.Fork?
  {
    if d[t.c] then
      if t.right.Leaf? then t.left else t.(right := Delete(t.right, d))
    else
      if t.left.Leaf? then t.right else t.(left := Delete(t.left, d))
  }

  /** The node whose leaf holds `d`; this is the one removal parks on the cool-off list. */
  function ParentOf(t: Tree, d: Key): nat
    requires WellFormed(t) && t.Fork?
  {
    if Child(t, d).Leaf? then t.y else ParentOf(Child(t, d), d)
  }

  lemma {:induction false} DeletedKeys(t: Tree, d: Key)
    requires WellFormed(t) && t.Fork? && d in Keys(t)
    ensures Keys(Delete(t, d)) == Keys(t) - {d}
    ensures Ys(Delete(t, d)) <= Ys(t)
  {
    ContentsOfChildren(t);
    var child := Child(t, d);
    if child.Fork? {
      DeletedKeys(child, d);
    }
  }

  lemma {:induction false} DeleteKeepsShape(t: Tree, d: Key)
    requires WellFormed(t) && t.Fork? && d in Keys(t)
    ensures var t' := Delete(t, d); WellFormed(t') && (t'.Fork? ==> t'.c >= t.c)
  {
    var child := Child(t, d);
    assert d in Keys(child);
    if child.Fork? {
      DeleteKeepsShape(child, d);
      DeletedKeys(child, d);
      ReplaceChild(t, d, Delete(child, d));
    }
  }

  lemma RemoveFromUnion(a: map<Key, nat>, b: map<Key, nat>, d: Key)
    requires a.Keys !! b.Keys
    ensures d !in a ==> a + (b - {d}) == (a + b) - {d}
    ensures d !in b ==> (a - {d}) + b == (a + b) - {d}
  {
  }

  /** Removal takes out exactly the given key. */
  lemma {:induction false} DeleteContents(t: Tree, d: Key)
    requires WellFormed(t) && t.Fork? && d in Keys(t)
    ensures Contents(Delete(t, d)) == Contents(t) - {d}
  {
    var child := Child(t, d);
    assert d in Keys(child) && !(d in Keys(t.left) && d in Keys(t.right));
    assert Contents(t.left).Keys !! Contents(t.right).Keys by { ContentsOfChildren(t); }
    RemoveFromUnion(Contents(t.left), Contents(t.right), d);
    if child.Fork? {
      DeleteContents(child, d);
    } else {
      assert Contents(child) - {d} == map[];
    }
  }
}
