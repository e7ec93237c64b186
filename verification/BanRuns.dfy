/** Whole runs over the ban list: what is never touched, never lost and never missed. */
module BanRuns {
  import opened Wrappers
  import opened BanThreads

  ghost predicate Runs(eval: Eval, s: Bans, moves: seq<Move>, s': Bans)
    decreases |moves|
  {
    if moves == [] then s' == s
    else Enabled(s, moves[0]) && Safe(s, moves[0]) && Runs(eval, Step(eval, s, moves[0]), moves[1..], s')
  }

  lemma InitInv(eval: Eval, magic: Spec)
    ensures Inv(eval, Init(magic))
  {
  }

  lemma {:induction false} RunKeepsInv(eval: Eval, s: Bans, moves: seq<Move>, s': Bans)
    requires ObjectOnly(eval) && Inv(eval, s) && Runs(eval, s, moves, s')
    ensures Inv(eval, s')
    decreases |moves|
  {
    if moves != [] {
      StepKeepsInv(eval, s, moves[0]);
      RunKeepsInv(eval, Step(eval, s, moves[0]), moves[1..], s');
    }
  }

  ghost predicate Reachable(eval: Eval, magic: Spec, s: Bans) {
    exists moves :: Runs(eval, Init(magic), moves, s)
  }

  lemma ReachableInv(eval: Eval, magic: Spec, s: Bans)
    requires ObjectOnly(eval) && Reachable(eval, magic, s)
    ensures Inv(eval, s)
  {
    var moves :| Runs(eval, Init(magic), moves, s);
    InitInv(eval, magic);
    RunKeepsInv(eval, Init(magic), moves, s);
  }

  /** Whatever the threads did so far, no move they can make next touches a ban that is out of the list,
      lowers a count that is zero, or takes an object off a list it is not on. */
  lemma NoFreedBanIsTouched(eval: Eval, magic: Spec, s: Bans, m: Move)
    requires ObjectOnly(eval) && Reachable(eval, magic, s) && Enabled(s, m)
    ensures Safe(s, m)
  {
    ReachableInv(eval, magic, s);
    MovesAreSafe(eval, s, m);
  }

  /** The count of a ban: the objects on it, tail references, and hunts that end at it. Retired bans have
      none of these. */
  lemma RefcountsAddUp(eval: Eval, magic: Spec, s: Bans, b: nat)
    requires ObjectOnly(eval) && Reachable(eval, magic, s) && b < |s.hist|
    ensures Sized(s) && s.refs[b] == |s.objs[b]| + |Ends(s, b)| + s.tails[b]
    ensures !InList(s, b) ==> s.objs[b] == {} && Ends(s, b) == {} && b !in s.tails
    ensures forall o :: o in s.objs[b] <==> o in s.ocs && s.ocs[o].on == Some(b)
  {
    ReachableInv(eval, magic, s);
  }

  // ---- duplicates ----

  /** The newest ban with the spec of `k`. */
  function Newest(hist: seq<Spec>, k: nat, n: nat): (r: nat)
    requires k < n <= |hist|
    ensures k <= r < n && hist[r] == hist[k]
    ensures forall k' :: r < k' < n ==> hist[k'] != hist[k]
    decreases n
  {
    if hist[n - 1] == hist[k] then n - 1 else Newest(hist, k, n - 1)
  }

  /** Switching off duplicates loses no test: every ban marked gone, but for the magic one, has a newer
      ban in the list that is the same and not marked. */
  lemma DuplicatesHaveASurvivor(eval: Eval, magic: Spec, s: Bans, k: nat)
    requires ObjectOnly(eval) && Reachable(eval, magic, s) && k in s.gone && k != 0 && s.tail <= k
    ensures exists k' {:trigger s.hist[k']} ::
      k < k' < |s.hist| && InList(s, k') && k' !in s.gone && s.hist[k'] == s.hist[k]
  {
    ReachableInv(eval, magic, s);
    SurvivorOf(s, k);
  }

  lemma SurvivorOf(s: Bans, k: nat)
    requires GoneOK(s) && 0 < k < |s.hist|
    ensures var r := Newest(s.hist, k, |s.hist|);
      r !in s.gone && k <= r < |s.hist| && s.hist[r] == s.hist[k] && (k in s.gone ==> k < r)
  {
    var r := Newest(s.hist, k, |s.hist|);
    assert !Superseded(s, r);
  }

  // ---- no object slips past a ban ----

  /** Every ban inserted after an object was created: it, or a newer copy of it, is still ahead of the
      object's ban pointer or was evaluated against the object without a match. */
  lemma NoBanIsMissed(eval: Eval, magic: Spec, s: Bans, o: nat, k: nat)
    requires ObjectOnly(eval) && Reachable(eval, magic, s)
    requires o in s.ocs && s.ocs[o].ban.Some? && s.ocs[o].birth < k < |s.hist|
    ensures exists k' {:trigger s.hist[k']} ::
      && k <= k' < |s.hist| && s.hist[k'] == s.hist[k]
      && (k' > s.ocs[o].ban.value || k' in s.ocs[o].cleared)
  {
    ReachableInv(eval, magic, s);
    SurvivorOf(s, k);
    assert OcOK(s, s.ocs[o]);
    assert s.hist[Newest(s.hist, k, |s.hist|)] == s.hist[k];
  }

  /** An object that passed a ban on the object alone, with no newer copy ahead, does not match it. */
  lemma PassedBansDoNotMatch(eval: Eval, magic: Spec, s: Bans, o: nat, k: nat, r: Http)
    requires ObjectOnly(eval) && Reachable(eval, magic, s)
    requires o in s.ocs && s.ocs[o].ban.Some? && s.ocs[o].birth < k < |s.hist| && !IsReq(s.hist[k])
    requires forall k' :: s.ocs[o].ban.value < k' < |s.hist| ==> s.hist[k'] != s.hist[k]
    ensures !eval(s.hist[k], s.ocs[o].http, r)
  {
    NoBanIsMissed(eval, magic, s, o, k);
    ReachableInv(eval, magic, s);
    assert ClearOK(eval, s, s.ocs[o]);
  }

  /** The check of an object is decided: it stopped at a match, or came to the object's ban without having
      had to skip any. */
  predicate Decided(s: Bans, o: nat) {
    && o in s.ocs
    && (s.ocs[o].check.Hit?
        || (s.ocs[o].check.Walk? && Some(s.ocs[o].check.at) == s.ocs[o].ban && s.ocs[o].check.skipped == 0))
  }

  /** The request of a check under way. */
  function CheckReq(c: Check): Option<Http> { if c.Walk? || c.Hit? then c.req else None }

  /** Some ban newer than the object's pointer matches it. */
  ghost predicate Matched(eval: Eval, s: Bans, o: nat)
    requires o in s.ocs && s.ocs[o].ban.Some?
  {
    exists k {:trigger s.hist[k]} ::
      s.ocs[o].ban.value < k < |s.hist| && eval(s.hist[k], s.ocs[o].http, Req(CheckReq(s.ocs[o].check)))
  }

  /** A request's check condemns an object exactly if some ban newer than the object's pointer matches,
      duplicates switched off or not. A walk that saved the object must not have been overtaken by an
      insert; one that condemned it may have been. */
  lemma CheckVerdict(eval: Eval, magic: Spec, s: Bans, o: nat)
    requires ObjectOnly(eval) && Reachable(eval, magic, s) && Decided(s, o)
    requires s.ocs[o].check.Walk? ==> s.ocs[o].check.req.Some? && s.ocs[o].check.b0 == |s.hist| - 1
    ensures s.ocs[o].ban.Some?
    ensures s.ocs[o].check.Hit? <==> Matched(eval, s, o)
  {
    ReachableInv(eval, magic, s);
    var oc := s.ocs[o];
    assert OcOK(s, oc) && ClearOK(eval, s, oc);
    if oc.check.Walk? {
      forall k | oc.ban.value < k < |s.hist| ensures !eval(s.hist[k], oc.http, Req(oc.check.req)) {
        SurvivorOf(s, k);
      }
    } else {
      assert eval(s.hist[oc.check.hit], oc.http, Req(oc.check.req));
    }
  }

  /** When all bans since are on the object alone, checks by requests and by the lurker condemn an object
      exactly if some ban inserted after it was created matches: the lazy walk agrees with testing every
      ban ever inserted. */
  lemma LazyIsEager(eval: Eval, magic: Spec, s: Bans, o: nat, r: Http)
    requires ObjectOnly(eval) && Reachable(eval, magic, s) && Decided(s, o)
    requires s.ocs[o].check.Walk? ==> s.ocs[o].check.b0 == |s.hist| - 1
    requires forall k :: s.ocs[o].birth < k < |s.hist| ==> !IsReq(s.hist[k])
    ensures s.ocs[o].check.Hit? <==>
      exists k {:trigger s.hist[k]} :: s.ocs[o].birth < k < |s.hist| && eval(s.hist[k], s.ocs[o].http, r)
  {
    ReachableInv(eval, magic, s);
    var oc := s.ocs[o];
    assert OcOK(s, oc) && ClearOK(eval, s, oc);
    if oc.check.Walk? {
      forall k | oc.birth < k < |s.hist| ensures !eval(s.hist[k], oc.http, r) {
        SurvivorOf(s, k);
      }
    } else {
      assert eval(s.hist[oc.check.hit], oc.http, r);
    }
  }

  /** The same when bans were inserted during the walk: what the check let pass either does not match or
      has a copy that the next check will meet. */
  lemma OvertakenCheck(eval: Eval, magic: Spec, s: Bans, o: nat, k: nat)
    requires ObjectOnly(eval) && Reachable(eval, magic, s) && Decided(s, o) && s.ocs[o].check.Walk?
    requires s.ocs[o].ban.value < k <= s.ocs[o].check.b0
    ensures k < |s.hist|
    ensures eval(s.hist[k], s.ocs[o].http, Req(s.ocs[o].check.req)) && (IsReq(s.hist[k]) ==> s.ocs[o].check.req.Some?)
      ==> exists k' {:trigger s.hist[k']} :: s.ocs[o].check.b0 < k' < |s.hist| && s.hist[k'] == s.hist[k]
  {
    ReachableInv(eval, magic, s);
    assert OcOK(s, s.ocs[o]) && ClearOK(eval, s, s.ocs[o]);
    SurvivorOf(s, k);
  }

  /** A check that lets an object pass is wrong exactly if a ban inserted after it read ban_start matches. This
      goes for requests, and for the lurker where the bans on the way are on the object alone. */
  lemma PassingVerdict(eval: Eval, magic: Spec, s: Bans, o: nat)
    requires ObjectOnly(eval) && Reachable(eval, magic, s) && Decided(s, o) && s.ocs[o].check.Walk?
    requires s.ocs[o].check.req.Some? || forall k :: s.ocs[o].ban.value < k < |s.hist| ==> !IsReq(s.hist[k])
    ensures s.ocs[o].ban.value <= s.ocs[o].check.b0 < |s.hist|
    ensures Matched(eval, s, o) <==> MatchedSince(eval, s, o)
  {
    ReachableInv(eval, magic, s);
    var oc := s.ocs[o];
    assert OcOK(s, oc) && ClearOK(eval, s, oc);
    var r := Req(oc.check.req);
    if k :| oc.ban.value < k < |s.hist| && eval(s.hist[k], oc.http, r) {
      if k <= oc.check.b0 {
        OvertakenCheck(eval, magic, s, o, k);
        var k' {:trigger s.hist[k']} :| oc.check.b0 < k' < |s.hist| && s.hist[k'] == s.hist[k];
        assert eval(s.hist[k'], oc.http, r);
      } else {
        assert eval(s.hist[k], oc.http, r);
      }
    }
  }

  /** Some ban inserted after the check read ban_start matches. */
  ghost predicate MatchedSince(eval: Eval, s: Bans, o: nat)
    requires o in s.ocs && s.ocs[o].check.Walk?
  {
    exists k {:trigger s.hist[k]} ::
      s.ocs[o].check.b0 < k < |s.hist| && eval(s.hist[k], s.ocs[o].http, Req(s.ocs[o].check.req))
  }

  /** It can be wrong, letting even a ban pass that it walked over: the ban is inserted again while the walk is
      on its way, and the hunt for duplicates marks the older one before the walk gets there. */
  lemma OvertakenCheckPasses()
    ensures var eval: Eval := (_, _, _) => true;
      && ObjectOnly(eval)
      && exists s :: Reachable(eval, "", s) && Decided(s, 0) && s.ocs[0].check.Walk?
           && s.ocs[0].ban == Some(0) && s.ocs[0].check.b0 == 1 && s.ocs[0].check.req == Some("")
           && |s.hist| == 3 && eval(s.hist[1], s.ocs[0].http, "")
  {
    var eval: Eval := (_, _, _) => true;
    var s1 := NewObj(Init(""), 0, "");
    var s2 := Insert(s1, "b", true);
    var s6 := OvertakenWalk(eval, s2);
    var walk := [DoStart(0, Some("")), DoInsert("b", true), DoHunt(2), DoVisit(0)];
    hide Runs;
    First(eval, s1, DoInsert("b", true), walk, s6);
    First(eval, Init(""), DoNewObj(0, ""), [DoInsert("b", true)] + walk, s6);
    assert Reachable(eval, "", s6);
  }

  lemma OvertakenWalk(eval: Eval, s2: Bans) returns (s6: Bans)
    requires s2 == Insert(NewObj(Init(""), 0, ""), "b", true)
    ensures Runs(eval, s2, [DoStart(0, Some("")), DoInsert("b", true), DoHunt(2), DoVisit(0)], s6)
    ensures Decided(s6, 0) && s6.ocs[0].check == Walk(1, 0, 0, Some("")) && s6.ocs[0].ban == Some(0)
    ensures s6.hist == ["", "b", "b"]
  {
    var s3 := CheckStart(s2, 0, Some(""));
    s6 := OvertakenEnd(eval, Insert(s3, "b", true));
    var end := [DoHunt(2), DoVisit(0)];
    hide Runs;
    assert [DoInsert("b", true)] + end == [DoInsert("b", true), DoHunt(2), DoVisit(0)];
    First(eval, s3, DoInsert("b", true), end, s6);
    First(eval, s2, DoStart(0, Some("")), [DoInsert("b", true)] + end, s6);
    assert [DoStart(0, Some(""))] + ([DoInsert("b", true)] + end)
      == [DoStart(0, Some("")), DoInsert("b", true), DoHunt(2), DoVisit(0)];
  }

  lemma OvertakenEnd(eval: Eval, s4: Bans) returns (s6: Bans)
    requires s4.hist == ["", "b", "b"] && s4.tail == 0 && 1 !in s4.gone && |s4.refs| == |s4.objs| == 3
    requires 2 in s4.hunts && s4.hunts[2] == Hunt(2, 0)
    requires 0 in s4.ocs && s4.ocs[0].check == Walk(1, 1, 0, Some("")) && s4.ocs[0].ban == Some(0)
    ensures Runs(eval, s4, [DoHunt(2), DoVisit(0)], s6)
    ensures Decided(s6, 0) && s6.ocs[0].check == Walk(1, 0, 0, Some("")) && s6.ocs[0].ban == Some(0)
    ensures s6.hist == ["", "b", "b"]
  {
    var s5 := HuntOn(s4, 2);
    s6 := Visit(eval, s5, 0);
    hide Runs;
    NoMoves(eval, s6);
    assert [DoVisit(0)] + [] == [DoVisit(0)] && [DoHunt(2)] + [DoVisit(0)] == [DoHunt(2), DoVisit(0)];
    First(eval, s5, DoVisit(0), [], s6);
    First(eval, s4, DoHunt(2), [DoVisit(0)], s6);
  }

  lemma NoMoves(eval: Eval, s: Bans)
    ensures Runs(eval, s, [], s)
  {
  }

  /** A run that starts with a move. */
  lemma First(eval: Eval, s: Bans, m: Move, rest: seq<Move>, s': Bans)
    requires Enabled(s, m) && Safe(s, m) && Runs(eval, Step(eval, s, m), rest, s')
    ensures Runs(eval, s, [m] + rest, s')
  {
    var moves := [m] + rest;
    assert moves[0] == m && moves[1..] == rest;
  }

  /** The lurker does not take an object past a request ban: some copy of it stays ahead. */
  lemma LurkerKeepsRequestBans(eval: Eval, magic: Spec, s: Bans, o: nat, k: nat)
    requires ObjectOnly(eval) && Reachable(eval, magic, s)
    requires Enabled(s, DoSettle(o)) && s.ocs[o].check.req.None?
    requires s.ocs[o].ban.value < k < |s.hist| && IsReq(s.hist[k])
    ensures Safe(s, DoSettle(o))
    ensures var s' := WriteBan(Settle(s, o), o);
      s.ocs[o].check.skipped == 0 ==>
        s'.ocs[o].ban.Some?
        && exists k' {:trigger s.hist[k']} :: s'.ocs[o].ban.value < k' < |s.hist| && s.hist[k'] == s.hist[k]
  {
    NoFreedBanIsTouched(eval, magic, s, DoSettle(o));
    ReachableInv(eval, magic, s);
    assert OcOK(s, s.ocs[o]);
    SurvivorOf(s, k);
  }
}
