/** HSH_Lookup's walk over an object head's object cores, and the lock regions that wake sessions, as they
    run. */
module HashLookup {
  import opened Wrappers
  import W = WaitingList
  import opened WaitingWakes

  /** An object core as the lookup of one request sees it. `match` is the outcome of the Vary check, `live`
      that its TTL is positive and no ban strikes it, `current` and `inGrace` that it has not expired for the
      request, with and without grace, and `expires` when its TTL runs out. */
  datatype Core = Core(busy: bool, varyOK: bool, live: bool, current: bool, inGrace: bool, expires: real)

  predicate Usable(c: Core) { !c.busy && c.live && c.varyOK }

  predicate Fresh(c: Core) { Usable(c) && c.current }

  predicate Grace(c: Core) { Usable(c) && !c.current && c.inGrace }

  /** The first fresh object core. */
  ghost predicate FirstFresh(cs: seq<Core>, oc: Option<nat>) {
    match oc
    case Some(i) => i < |cs| && Fresh(cs[i]) && forall k :: 0 <= k < i ==> !Fresh(cs[k])
    case None => forall k :: 0 <= k < |cs| ==> !Fresh(cs[k])
  }

  /** The object core in grace that expired least long ago, the first of several. */
  ghost predicate BestGrace(cs: seq<Core>, n: nat, g: Option<nat>)
    requires n <= |cs|
  {
    match g
    case Some(i) =>
      && i < n && Grace(cs[i])
      && (forall k :: 0 <= k < n && Grace(cs[k]) ==> cs[k].expires <= cs[i].expires)
      && (forall k :: 0 <= k < i && Grace(cs[k]) ==> cs[k].expires < cs[i].expires)
    case None => forall k :: 0 <= k < n ==> !Grace(cs[k])
  }

  ghost predicate SawBusy(cs: seq<Core>, n: nat, ignoreBusy: bool)
    requires n <= |cs|
  {
    !ignoreBusy && exists k :: 0 <= k < n && cs[k].busy && cs[k].varyOK
  }

  datatype Verdict = Take(oc: nat) | Queue | Fetch

  /** How many object cores are looked at. */
  ghost function Seen(cs: seq<Core>, first: Option<nat>): (n: nat)
    requires FirstFresh(cs, first)
    ensures n <= |cs|
  {
    if first.Some? then first.value else |cs|
  }

  /** The verdict for a list of object cores of which the first `n` are looked at. */
  ghost predicate Says(cs: seq<Core>, first: Option<nat>, n: nat, grace: Option<nat>, ignoreBusy: bool,
                       alwaysMiss: bool, healthy: bool, v: Verdict)
    requires n <= |cs|
  {
    && (v.Take? <==>
          !alwaysMiss && (first.Some? || (grace.Some? && (SawBusy(cs, n, ignoreBusy) || !healthy))))
    && (v.Take? ==> v.oc == if first.Some? then first.value else grace.value)
    && (v.Queue? <==> !v.Take? && SawBusy(cs, n, ignoreBusy))
  }

  /** A fresh object if there is one; else one in grace if somebody is fetching or nobody can; else wait
      for the fetch under way; else fetch. What comes after a fresh object does not matter. */
  ghost predicate RightVerdict(cs: seq<Core>, ignoreBusy: bool, alwaysMiss: bool, healthy: bool, v: Verdict) {
    exists first: Option<nat>, grace: Option<nat> ::
      && FirstFresh(cs, first) && BestGrace(cs, Seen(cs, first), grace)
      && Says(cs, first, Seen(cs, first), grace, ignoreBusy, alwaysMiss, healthy, v)
  }

  /** There is only one right verdict. */
  lemma VerdictIsUnique(cs: seq<Core>, ignoreBusy: bool, alwaysMiss: bool, healthy: bool, v: Verdict, v': Verdict)
    requires RightVerdict(cs, ignoreBusy, alwaysMiss, healthy, v)
    requires RightVerdict(cs, ignoreBusy, alwaysMiss, healthy, v')
    ensures v == v'
  {
    var first: Option<nat>, grace: Option<nat> :|
      && FirstFresh(cs, first) && BestGrace(cs, Seen(cs, first), grace)
      && Says(cs, first, Seen(cs, first), grace, ignoreBusy, alwaysMiss, healthy, v);
    var first': Option<nat>, grace': Option<nat> :|
      && FirstFresh(cs, first') && BestGrace(cs, Seen(cs, first'), grace')
      && Says(cs, first', Seen(cs, first'), grace', ignoreBusy, alwaysMiss, healthy, v');
    SameFresh(cs, first, first');
    SameGrace(cs, Seen(cs, first), grace, grace');
  }

  lemma SameFresh(cs: seq<Core>, a: Option<nat>, b: Option<nat>)
    requires FirstFresh(cs, a) && FirstFresh(cs, b)
    ensures a == b
  {
    if a.Some? && b.Some? { assert a.value == b.value; }
  }

  lemma SameGrace(cs: seq<Core>, n: nat, a: Option<nat>, b: Option<nat>)
    requires n <= |cs| && BestGrace(cs, n, a) && BestGrace(cs, n, b)
    ensures a == b
  {
    if a.Some? && b.Some? { assert a.value == b.value; }
  }

  /** The loop of HSH_Lookup and what it makes of it. */
  method Lookup(cs: seq<Core>, ignoreBusy: bool, alwaysMiss: bool, healthy: bool) returns (v: Verdict)
    ensures RightVerdict(cs, ignoreBusy, alwaysMiss, healthy, v)
  {
    var busy, i: nat := false, 0;
    var best: Option<nat> := None;
    var oc: Option<nat> := None;
    while i < |cs|
      invariant i <= |cs| && oc == None
      invariant forall k :: 0 <= k < i ==> !Fresh(cs[k])
      invariant BestGrace(cs, i, best) && busy == SawBusy(cs, i, ignoreBusy)
    {
      var c := cs[i];
      if c.busy {
        if !ignoreBusy && c.varyOK { busy := true; }
      } else if c.live && c.varyOK {
        if c.current {
          oc := Some(i);
          break;
        }
        if c.inGrace && (best == None || cs[best.value].expires < c.expires) { best := Some(i); }
      }
      i := i + 1;
    }
    ghost var first, n := oc, i;
    assert FirstFresh(cs, first) && n == Seen(cs, first);
    if oc == None && best.Some? && (busy || !healthy) { oc := best; }
    if oc.Some? && !alwaysMiss { v := Take(oc.value); }
    else if busy { v := Queue; }
    else { v := Fetch; }
    assert Says(cs, first, n, best, ignoreBusy, alwaysMiss, healthy, v);
  }

  /** What a lookup does to the object head is one of the moves it can make: an object it takes is not
      busy, and it only queues if there is a busy one. */
  lemma VerdictIsMove(h: W.Head, s: nat, cs: seq<Core>, ids: seq<nat>, v: Verdict, ignoreBusy: bool,
                      alwaysMiss: bool, healthy: bool)
    requires |ids| == |cs| && W.AtLookup(h, s)
    requires forall i :: 0 <= i < |ids| ==> ids[i] in h.objcs && h.objcs[ids[i]].busy == cs[i].busy
    requires RightVerdict(cs, ignoreBusy, alwaysMiss, healthy, v)
    ensures v.Take? ==> v.oc < |cs| && Usable(cs[v.oc]) && W.Enabled(h, W.Hit(s, ids[v.oc]))
    ensures v.Queue? ==> W.Enabled(h, W.Wait(s))
  {
    var first: Option<nat>, grace: Option<nat> :|
      && FirstFresh(cs, first) && BestGrace(cs, Seen(cs, first), grace)
      && Says(cs, first, Seen(cs, first), grace, ignoreBusy, alwaysMiss, healthy, v);
    if v.Queue? {
      var k :| 0 <= k < |cs| && cs[k].busy && cs[k].varyOK;
      assert ids[k] in h.objcs && h.objcs[ids[k]].busy;
    }
  }

  /** An object head with its sessions. */
  class ObjHead {
    var h: W.Head
    const rush: nat

    constructor (s: nat, rush: nat)
      ensures h == W.Init(s) && this.rush == rush
    {
      h, this.rush := W.Init(s), rush;
    }

    /** hsh_rush. */
    method HshRush()
      requires h.waiting.Some?
      modifies this
      ensures h == W.Rush(old(h), rush) && WakesFront(old(h), h, rush, None)
    {
      RushWakesFront(h, rush);
      var wl := h.waiting.value;
      var sess := h.sess;
      var u := 0;
      ghost var all := wl;
      assert all[..0] == [];
      while u < rush && wl != []
        invariant u <= |all| && u <= rush && wl == all[u..] && sess == W.Wake(h.sess, all[..u])
        invariant h == old(h)
        decreases rush - u
      {
        var sp := wl[0];
        wl := wl[1..];
        sess := sess[sp := W.Woken];
        u := u + 1;
        assert all[..u][..u - 1] == all[..u - 1] && all[..u][u - 1] == sp;
      }
      h := h.(sess := sess, waiting := if wl == [] then None else Some(wl));
    }

    /** HSH_Unbusy for the session `s` that fetched. */
    method Unbusy(s: nat)
      requires W.Safe(h, W.Unbusy(s))
      modifies this
      ensures h == W.Step(old(h), W.Unbusy(s), rush) && WakesFront(old(h), h, rush, Some(s))
    {
      var oc := h.sess[s].oc;
      h := W.Put(W.PutOc(h, oc, h.objcs[oc].(busy := false)), s, W.Holding(oc));
      WakesAfter(old(h), h, rush, s);
      if h.waiting.Some? { HshRush(); }
    }

    /** HSH_Deref by a session: whether the object core is gone, with its reference to the head still to be
        given up. */
    method Deref(s: nat) returns (gone: bool)
      requires W.Safe(h, W.Release(s)) || W.Safe(h, W.Drop(s))
      modifies this
      ensures gone <==> old(h.objcs[h.sess[s].oc].refcnt) == 1
      ensures h == W.Step(old(h), if old(h.sess[s].Holding?) then W.Release(s) else W.Drop(s), rush)
      ensures WakesFront(old(h), h, rush, Some(s))
    {
      var oc := h.sess[s].oc;
      var r := h.objcs[oc].refcnt - 1;
      gone := r == 0;
      if gone {
        h := h.(objcs := h.objcs - {oc}, sess := h.sess[s := W.Releasing]);
      } else {
        h := h.(objcs := h.objcs[oc := h.objcs[oc].(refcnt := r)], sess := h.sess - {s});
      }
      WakesAfter(old(h), h, rush, s);
      if h.waiting.Some? { HshRush(); }
    }
  }
}
