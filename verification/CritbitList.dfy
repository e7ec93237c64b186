/** The lock-free tree against the sorted list: in every interleaving the two give the same answers. */
module CritbitList {
  import opened Wrappers
  import opened DigestBits
  import opened CritbitThreads
  import HeadIndex
  import L = SimpleList

  /** The list performs an event, provided it would give the same answer. */
  ghost function PerformOnList(list: seq<L.Head>, e: Event): Option<seq<L.Head>> {
    match e
    case Internal => Some(list)
    case Lookup(d, noh, oh) =>
      var (list', found) := L.Looked(list, d, noh);
      if found == oh then Some(list') else None
    case Deref(d) =>
      var i := L.Place(list, d);
      if i < |list| && list[i].digest == d && list[i].refcnt > 0 then Some(L.Dropped(list, i)) else None
  }

  ghost function ReplayOnList(es: seq<Event>): Option<seq<L.Head>> {
    if es == [] then Some([])
    else
      match ReplayOnList(es[..|es| - 1])
      case None => None
      case Some(list) => PerformOnList(list, es[|es| - 1])
  }

  /** The list holds the head for `d` where the search stops, if the index has one. */
  lemma PlaceOf(list: seq<L.Head>, ix: HeadIndex.Index, d: Digest)
    requires L.Sorted(list) && L.Represents(list, ix) && d in ix
    ensures var i := L.Place(list, d);
      i < |list| && list[i].digest == d && list[i].refcnt == ix[d].refcnt
  {
    var i: nat :| i < |list| && list[i].digest == d;
    L.LessIrreflexive(d);
    L.PlaceIs(list, d, i);
    assert list[i] in list;
  }

  /** What the index can do, the list can do. */
  lemma ListFollows(list: seq<L.Head>, ix: HeadIndex.Index, e: Event)
    requires L.Sorted(list) && L.Represents(list, ix) && Perform(ix, e).Some?
    ensures var r := PerformOnList(list, e);
      r.Some? && L.Sorted(r.value) && L.Represents(r.value, Perform(ix, e).value)
  {
    match e
    case Internal =>
    case Lookup(d, noh, _) => L.LookedRepresents(list, ix, d, noh);
    case Deref(d) =>
      PlaceOf(list, ix, d);
      L.DroppedRepresents(list, ix, L.Place(list, d));
  }

  lemma {:induction false} ReplaysAgree(es: seq<Event>)
    requires Replay(es).Some?
    ensures var r := ReplayOnList(es);
      r.Some? && L.Sorted(r.value) && L.Represents(r.value, Replay(es).value)
  {
    if es != [] {
      var front := es[..|es| - 1];
      ReplaysAgree(front);
      ListFollows(ReplayOnList(front).value, Replay(front).value, es[|es| - 1]);
    }
  }

  /** In every interleaving, what threads see of the tree is a run of the sorted list with the same
      answers, and in the end the tree has counted heads for exactly the digests in the list, with the
      same heads and counts. */
  lemma TreeIsList(ss: seq<State>, sched: seq<Turn>)
    requires Run(ss, sched)
    ensures var r, s := ReplayOnList(Trace(ss, sched)), ss[|sched|];
      && Inv(s) && r.Some? && L.Sorted(r.value)
      && (forall h :: h in r.value ==>
            Live(s, h.digest) && EntryOf(s, h.digest) == HeadIndex.Entry(h.oh, h.refcnt))
      && (forall d :: Live(s, d) ==> exists h :: h in r.value && h.digest == d)
  {
    RunRefinesReference(ss, sched);
    ReplaysAgree(Trace(ss, sched));
    var list, ix, s := ReplayOnList(Trace(ss, sched)).value, Replay(Trace(ss, sched)).value, ss[|sched|];
    forall h | h in list
      ensures Live(s, h.digest) && EntryOf(s, h.digest) == HeadIndex.Entry(h.oh, h.refcnt)
    {
      assert ShowsAt(s, ix, h.digest);
    }
    forall d | Live(s, d) ensures exists h :: h in list && h.digest == d {
      assert ShowsAt(s, ix, d);
    }
  }
}
