/** The ban list as one thread sees it: inserting and reloading bans, switching off duplicates, checking
    an object. */
module BanLists {
  import opened Wrappers
  import opened BanThreads

  /** `spec` is what follows the time stamp in the bytes of the ban. */
  datatype Ban = Ban(time: real, spec: Spec, gone: bool, refcount: nat)

  /** Newest first. */
  ghost predicate Sorted(bans: seq<Ban>) {
    forall i, j :: 0 <= i < j < |bans| ==> bans[i].time > bans[j].time
  }

  predicate HasLive(bans: seq<Ban>, spec: Spec) {
    exists i :: 0 <= i < |bans| && !bans[i].gone && bans[i].spec == spec
  }

  /** Every ban marked gone, other than the magic one and copies of it, has a newer one that is the same
      and not marked. */
  ghost predicate Survivors(magic: Spec, bans: seq<Ban>) {
    forall i :: 0 <= i < |bans| && bans[i].gone && bans[i].spec != magic ==> HasLive(bans[..i], bans[i].spec)
  }

  function Mark(bans: seq<Ban>, spec: Spec): (r: seq<Ban>)
    ensures |r| == |bans|
    ensures forall i :: 0 <= i < |r| ==> r[i] == bans[i].(gone := bans[i].gone || bans[i].spec == spec)
  {
    if bans == [] then []
    else [bans[0].(gone := bans[0].gone || bans[0].spec == spec)] + Mark(bans[1..], spec)
  }

  /** Where a spec occurs at all, it occurs unmarked. */
  lemma LiveAmong(magic: Spec, bans: seq<Ban>, n: nat, spec: Spec)
    requires Survivors(magic, bans) && n <= |bans| && spec != magic
    requires exists i :: 0 <= i < n && bans[i].spec == spec
    ensures HasLive(bans[..n], spec)
  {
    var i :| 0 <= i < n && bans[i].spec == spec;
    if bans[i].gone {
      var k :| 0 <= k < |bans[..i]| && !bans[..i][k].gone && bans[..i][k].spec == spec;
      assert bans[..n][k] == bans[k];
    } else {
      assert bans[..n][i] == bans[i];
    }
  }

  class BanList {
    var bans: seq<Ban>
    const magic: Spec

    /** Nothing is asked of the times: the clock is read before the lock is taken, so they need not grow. */
    ghost predicate Valid() reads this {
      bans != [] && Survivors(magic, bans)
    }

    /** BAN_Init: the magic ban, gone from the start. */
    constructor (magic: Spec, t0: real)
      ensures Valid() && Sorted(bans) && bans == [Ban(t0, magic, true, 0)] && this.magic == magic
    {
      this.magic := magic;
      bans := [Ban(t0, magic, true, 0)];
    }

    /** Marks the copies of `spec` from position `i` on. */
    method Hunt(spec: Spec, i: nat)
      requires i <= |bans|
      modifies this`bans
      ensures bans == old(bans[..i]) + Mark(old(bans[i..]), spec)
    {
      ghost var was := bans;
      var bi := i;
      while bi < |bans|
        invariant i <= bi <= |bans| == |was|
        invariant bans[..i] == was[..i] && bans[bi..] == was[bi..]
        invariant forall k :: i <= k < bi ==> bans[k] == was[k].(gone := was[k].gone || was[k].spec == spec)
      {
        assert bans[bi] == bans[bi..][0] == was[bi..][0] == was[bi];
        if !bans[bi].gone && bans[bi].spec == spec {
          bans := bans[bi := bans[bi].(gone := true)];
        }
        bi := bi + 1;
        assert bans[bi..] == was[bi..] by { assert was[bi..] == was[bi - 1..][1..]; }
      }
      assert bans == was[..i] + Mark(was[i..], spec);
    }

    /** BAN_Insert, run without interruption. The list stays in order of time exactly if the clock moved on. */
    method Insert(spec: Spec, t0: real, dups: bool)
      requires Valid()
      modifies this`bans
      ensures Valid()
      ensures Sorted(bans) <==> Sorted(old(bans)) && t0 > old(bans)[0].time
      ensures bans == [Ban(t0, spec, false, 0)] + if dups then Mark(old(bans), spec) else old(bans)
    {
      ghost var was := bans;
      bans := [Ban(t0, spec, false, 0)] + bans;
      if dups {
        assert bans[1..] == was && bans[..1] == [Ban(t0, spec, false, 0)];
        Hunt(spec, 1);
      }
      InsertOrder(magic, was, Ban(t0, spec, false, 0), dups);
    }

    /** BAN_Reload: a ban is put where its time belongs, unless there is one of that time. It is gone if a
        newer ban is the same, and makes older ones that are the same gone. */
    method Reload(spec: Spec, t0: real) returns (ghost n: nat)
      requires Valid()
      modifies this`bans
      ensures Valid() && n <= |old(bans)| && (Sorted(old(bans)) ==> Sorted(bans))
      ensures (forall i :: 0 <= i < n ==> old(bans)[i].time > t0) && (n < |old(bans)| ==> old(bans)[n].time <= t0)
      ensures bans ==
        if n < |old(bans)| && old(bans)[n].time == t0 then old(bans)
        else Reloaded(old(bans), n, Ban(t0, spec, exists i :: 0 <= i < n && old(bans)[i].spec == spec, 0))
    {
      ghost var was := bans;
      var gone, b := false, 0;
      while b < |bans|
        invariant b <= |bans| && bans == was
        invariant forall i :: 0 <= i < b ==> bans[i].time > t0
        invariant gone <==> exists i :: 0 <= i < b && bans[i].spec == spec
      {
        if bans[b].time == t0 { return b; }
        if bans[b].time < t0 { break; }
        if bans[b].spec == spec { gone := true; }
        b := b + 1;
      }
      var b2 := Ban(t0, spec, gone, 0);
      bans := bans[..b] + [b2] + bans[b..];
      assert bans[..b + 1] == was[..b] + [b2] && bans[b + 1..] == was[b..];
      hide Sorted, Survivors;
      Hunt(spec, b + 1);
      n := b;
      assert bans == Reloaded(was, b, b2);
      ReloadOrder(magic, was, b, b2);
    }

    /** ban_CheckLast: the oldest ban is taken off the list, if nothing refers to it and it is not the only
        one. */
    method CheckLast() returns (b: Option<Ban>)
      requires Valid()
      modifies this`bans
      ensures Valid() && (Sorted(old(bans)) ==> Sorted(bans))
      ensures b.Some? <==> |old(bans)| > 1 && old(bans)[|old(bans)| - 1].refcount == 0
      ensures old(bans) == bans + if b.Some? then [b.value] else []
    {
      var n := |bans| - 1;
      if n == 0 || bans[n].refcount != 0 { return None; }
      SurvivorsOfPrefix(magic, bans, n);
      b, bans := Some(bans[n]), bans[..n];
    }

    /** ban_check_object, run without interruption, for an object on the ban at position `p`: what it
        stops at, if anything, and whether the object moves to the newest ban. */
    method CheckObject(eval: Eval, p: nat, http: Http, req: Option<Http>) returns (hit: Option<nat>, moved: bool)
      requires Valid() && p < |bans| && bans[p].refcount > 0
      modifies this`bans
      ensures hit.Some? <==> exists b {:trigger Stops(old(bans), eval, b, http, req)} ::
        0 <= b < p && Stops(old(bans), eval, b, http, req)
      ensures hit.Some? ==> hit.value < p && Stops(old(bans), eval, hit.value, http, req)
      ensures moved <==> hit.None? && p > 0 && forall b {:trigger Skips(old(bans), b, req)} ::
        0 <= b < p ==> !Skips(old(bans), b, req)
      ensures |bans| == |old(bans)| && forall b :: 0 <= b < |bans| ==>
        bans[b] == old(bans)[b].(refcount := old(bans)[b].refcount - (if b == p && (hit.Some? || moved) then 1 else 0)
                                 + if b == 0 && moved then 1 else 0)
    {
      hit, moved := None, false;
      if p == 0 { return; }
      var b, skipped := 0, 0;
      while b != p
        invariant b <= p && hit.None?
        invariant forall k :: 0 <= k < b ==> !Stops(bans, eval, k, http, req)
        invariant skipped > 0 <==> exists k :: 0 <= k < b && Skips(bans, k, req)
        invariant skipped >= 0
      {
        if !bans[b].gone {
          if req.None? && IsReq(bans[b].spec) {
            skipped := skipped + 1;
            assert Skips(bans, b, req);
          } else if eval(bans[b].spec, http, Req(req)) {
            hit := Some(b);
            break;
          }
        }
        b := b + 1;
      }
      if b == p && skipped > 0 { return; }
      ghost var was := bans;
      bans := bans[p := bans[p].(refcount := bans[p].refcount - 1)];
      if b == p {
        bans := bans[0 := bans[0].(refcount := bans[0].refcount + 1)];
        moved := true;
      } else {
        assert Stops(was, eval, b, http, req);
      }
    }
  }

  /** A check stops at an unmarked ban that it can test and that matches. */
  predicate Stops(bans: seq<Ban>, eval: Eval, b: nat, http: Http, req: Option<Http>)
    requires b < |bans|
  {
    !bans[b].gone && !Skips(bans, b, req) && eval(bans[b].spec, http, Req(req))
  }

  /** A check without a request cannot test request bans. */
  predicate Skips(bans: seq<Ban>, b: nat, req: Option<Http>)
    requires b < |bans|
  {
    !bans[b].gone && req.None? && IsReq(bans[b].spec)
  }

  /** Taking bans off the end leaves every mark its reason, since that is a newer ban. */
  lemma SurvivorsOfPrefix(magic: Spec, bans: seq<Ban>, n: nat)
    requires Survivors(magic, bans) && n <= |bans|
    ensures Survivors(magic, bans[..n])
  {
    forall i | 0 <= i < n && bans[i].gone && bans[i].spec != magic ensures HasLive(bans[..n][..i], bans[i].spec) {
      assert bans[..n][..i] == bans[..i];
    }
  }

  lemma InsertOrder(magic: Spec, was: seq<Ban>, b: Ban, dups: bool)
    requires Survivors(magic, was) && was != [] && !b.gone
    ensures var bans := [b] + if dups then Mark(was, b.spec) else was;
      Survivors(magic, bans) && (Sorted(bans) <==> Sorted(was) && b.time > was[0].time)
  {
    hide Sorted, Survivors;
    if dups { MarkKeeps(was, b.spec); }
    var marked := if dups then Mark(was, b.spec) else was;
    hide Mark;
    InsertMarked(magic, was, b, marked);
  }

  /** Marking changes flags only, and only where the spec is the one marked. */
  ghost predicate Remarked(was: seq<Ban>, spec: Spec, marked: seq<Ban>) {
    && |marked| == |was|
    && (forall i :: 0 <= i < |was| ==> marked[i].time == was[i].time && marked[i].spec == was[i].spec)
    && (forall i :: 0 <= i < |was| && was[i].spec != spec ==> marked[i] == was[i])
  }

  lemma MarkKeeps(was: seq<Ban>, spec: Spec)
    ensures Remarked(was, spec, Mark(was, spec))
  {
    hide Mark;
  }

  lemma InsertMarked(magic: Spec, was: seq<Ban>, b: Ban, marked: seq<Ban>)
    requires Survivors(magic, was) && was != [] && !b.gone && Remarked(was, b.spec, marked)
    ensures Survivors(magic, [b] + marked)
    ensures Sorted([b] + marked) <==> Sorted(was) && b.time > was[0].time
  {
    hide Sorted, Survivors;
    var bans := [b] + marked;
    forall i | 0 <= i < |was| ensures bans[i + 1] == marked[i] {}
    InsertSorted(was, b, bans);
    InsertSurvivors(magic, was, b, bans);
  }

  lemma InsertSurvivors(magic: Spec, was: seq<Ban>, b: Ban, bans: seq<Ban>)
    requires Survivors(magic, was) && |bans| == |was| + 1 && bans[0] == b && !b.gone
    requires forall i :: 0 <= i < |was| ==> bans[i + 1].spec == was[i].spec
    requires forall i :: 0 <= i < |was| && was[i].spec != b.spec ==> bans[i + 1] == was[i]
    ensures Survivors(magic, bans)
  {
    hide HasLive;
    forall i | 0 <= i < |bans| && bans[i].gone && bans[i].spec != magic ensures HasLive(bans[..i], bans[i].spec) {
      assert bans[i - 1 + 1] == bans[i];
      if bans[i].spec == b.spec { NewIsLive(bans, i); } else { OldIsLive(was, b, bans, i, bans[i].spec); }
    }
  }

  lemma NewIsLive(bans: seq<Ban>, i: nat)
    requires 0 < i < |bans| && !bans[0].gone
    ensures HasLive(bans[..i], bans[0].spec)
  {
    assert bans[..i][0] == bans[0];
  }

  lemma OldIsLive(was: seq<Ban>, b: Ban, bans: seq<Ban>, i: nat, spec: Spec)
    requires |bans| == |was| + 1 && 0 < i < |bans| && spec != b.spec && HasLive(was[..i - 1], spec)
    requires forall k :: 0 <= k < |was| && was[k].spec != b.spec ==> bans[k + 1] == was[k]
    ensures HasLive(bans[..i], spec)
  {
    var k :| 0 <= k < i - 1 && !was[..i - 1][k].gone && was[..i - 1][k].spec == spec;
    assert bans[..i][k + 1] == was[k];
  }

  lemma InsertSorted(was: seq<Ban>, b: Ban, bans: seq<Ban>)
    requires was != [] && |bans| == |was| + 1 && bans[0] == b
    requires forall i :: 0 <= i < |was| ==> bans[i + 1].time == was[i].time
    ensures Sorted(bans) <==> Sorted(was) && b.time > was[0].time
  {
    if Sorted(bans) {
      forall i, j | 0 <= i < j < |was| ensures was[i].time > was[j].time {
        assert bans[i + 1].time > bans[j + 1].time;
      }
      assert bans[0].time > bans[1].time;
    }
    if Sorted(was) && b.time > was[0].time {
      forall i, j | 0 <= i < j < |bans| ensures bans[i].time > bans[j].time {
        assert bans[j].time == was[j - 1].time;
        if i > 0 { assert bans[i].time == was[i - 1].time; }
      }
    }
  }

  /** The list after a reload, and what was where before. */
  ghost function Reloaded(was: seq<Ban>, n: nat, b: Ban): (r: seq<Ban>)
    requires n <= |was|
    ensures |r| == |was| + 1 && r[..n] == was[..n] && r[n] == b
    ensures forall i :: n < i < |r| ==>
      r[i] == was[i - 1].(gone := was[i - 1].gone || was[i - 1].spec == b.spec)
  {
    was[..n] + [b] + Mark(was[n..], b.spec)
  }

  lemma ReloadOrder(magic: Spec, was: seq<Ban>, n: nat, b: Ban)
    requires Survivors(magic, was) && n <= |was|
    requires forall i :: 0 <= i < n ==> was[i].time > b.time
    requires n < |was| ==> was[n].time < b.time
    requires b.gone <==> exists i :: 0 <= i < n && was[i].spec == b.spec
    ensures Survivors(magic, Reloaded(was, n, b)) && (Sorted(was) ==> Sorted(Reloaded(was, n, b)))
  {
    var bans := Reloaded(was, n, b);
    hide Reloaded;
    if Sorted(was) { ReloadSorted(was, n, b); }
    hide Sorted, HasLive;
    forall i | 0 <= i < |bans| && bans[i].gone && bans[i].spec != magic ensures HasLive(bans[..i], bans[i].spec) {
      if i < n {
        assert bans[..i] == bans[..n][..i] == was[..n][..i] == was[..i] && bans[i] == bans[..n][i] == was[i];
      } else if i == n {
        LiveAmong(magic, was, n, b.spec);
      } else {
        OlderSurvives(magic, was, n, b, i);
      }
    }
  }

  lemma ReloadSorted(was: seq<Ban>, n: nat, b: Ban)
    requires Sorted(was) && n <= |was| && (forall i :: 0 <= i < n ==> was[i].time > b.time)
    requires n < |was| ==> was[n].time < b.time
    ensures Sorted(Reloaded(was, n, b))
  {
    var bans := Reloaded(was, n, b);
    hide Reloaded;
    forall i | 0 <= i < |bans|
      ensures bans[i].time == if i < n then was[i].time else if i == n then b.time else was[i - 1].time
    {
      if i < n { assert bans[i] == bans[..n][i]; }
    }
  }

  lemma OlderSurvives(magic: Spec, was: seq<Ban>, n: nat, b: Ban, i: nat)
    requires Survivors(magic, was) && n < i <= |was|
    requires b.gone <==> exists i :: 0 <= i < n && was[i].spec == b.spec
    requires var bans := Reloaded(was, n, b); bans[i].gone && bans[i].spec != magic
    ensures var bans := Reloaded(was, n, b); HasLive(bans[..i], bans[i].spec)
  {
    var bans := Reloaded(was, n, b);
    hide Reloaded, Mark;
    var newer, spec := bans[..i], bans[i].spec;
    assert bans[..n] == newer[..n];
    if spec != b.spec {
      var k :| 0 <= k < |was[..i - 1]| && !was[..i - 1][k].gone && was[..i - 1][k].spec == spec;
      if k < n { assert newer[k] == bans[..n][k] == was[k]; } else { assert newer[k + 1].spec == spec; }
    } else if b.gone {
      LiveAmong(magic, was, n, spec);
      var k :| 0 <= k < |was[..n]| && !was[..n][k].gone && was[..n][k].spec == spec;
      assert newer[k] == bans[..n][k];
    } else {
      assert newer[n] == b;
    }
  }

  /** Duplicates switched off change no verdict: an unmarked ban newer than the object's stops the check
      if and only if any such ban, marked or not, matches. */
  lemma DuplicatesChangeNoVerdict(magic: Spec, bans: seq<Ban>, eval: Eval, p: nat, http: Http, req: Http)
    requires Survivors(magic, bans) && p < |bans|
    requires forall i :: 0 <= i < p ==> bans[i].spec != magic
    ensures (exists b {:trigger Stops(bans, eval, b, http, Some(req))} ::
               0 <= b < p && Stops(bans, eval, b, http, Some(req)))
      <==> exists b {:trigger bans[b]} :: 0 <= b < p && eval(bans[b].spec, http, req)
  {
    if b :| 0 <= b < p && eval(bans[b].spec, http, req) {
      if bans[b].gone {
        var k :| 0 <= k < |bans[..b]| && !bans[..b][k].gone && bans[..b][k].spec == bans[b].spec;
        assert Stops(bans, eval, k, http, Some(req));
      } else {
        assert Stops(bans, eval, b, http, Some(req));
      }
    }
    if b :| 0 <= b < p && Stops(bans, eval, b, http, Some(req)) {
      assert eval(bans[b].spec, http, req);
    }
  }
}
