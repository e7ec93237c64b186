/** What becomes of objects and bans over whole runs: a condemned object never comes back, one that passes
    hangs on the newest ban, duplicates get marked, and the tail retires. */
module BanFates {
  import opened Wrappers
  import opened BanThreads
  import opened BanRuns

  // ---- one object among many threads ----

  /** The object that a move is about. */
  function Of(m: Move): Option<nat> {
    match m
    case DoNewObj(o, _) => Some(o)
    case DoDestroy(o) => Some(o)
    case DoStart(o, _) => Some(o)
    case DoVisit(o) => Some(o)
    case DoSettle(o) => Some(o)
    case DoCondemn(o) => Some(o)
    case DoWrite(o) => Some(o)
    case _ => None
  }

  /** Moves about other objects, and those about bans, leave an object as it is. */
  lemma OthersLeave(eval: Eval, s: Bans, m: Move, o: nat)
    requires Safe(s, m) && o in s.ocs && Of(m) != Some(o)
    ensures o in Step(eval, s, m).ocs && Step(eval, s, m).ocs[o] == s.ocs[o]
  {
  }

  /** The moves about one object, in order. */
  function Own(moves: seq<Move>, o: nat): seq<Move> {
    if moves == [] then [] else (if Of(moves[0]) == Some(o) then [moves[0]] else []) + Own(moves[1..], o)
  }

  // ---- the end of a check ----

  /** An object under check is on the list of the ban it hangs on, and on no other. */
  lemma HangsOnOne(eval: Eval, magic: Spec, s: Bans, o: nat)
    requires ObjectOnly(eval) && Reachable(eval, magic, s)
    requires o in s.ocs && (s.ocs[o].check.Hit? || s.ocs[o].check.Walk?)
    ensures Sized(s) && s.ocs[o].ban.Some? && s.ocs[o].ban.value < |s.hist| && s.refs[s.ocs[o].ban.value] > 0
    ensures forall c :: 0 <= c < |s.objs| ==> (o in s.objs[c] <==> c == s.ocs[o].ban.value)
  {
    ReachableInv(eval, magic, s);
    assert OcOK(s, s.ocs[o]);
    ObjectHolds(s, o);
  }

  /** All that a step at the end of a check can change: the check of one object, its list, and two counts. */
  ghost predicate OnlyHangs(s: Bans, s': Bans, o: nat) {
    && o in s'.ocs && s'.ocs.Keys == s.ocs.Keys && (forall p :: p in s.ocs && p != o ==> s'.ocs[p] == s.ocs[p])
    && s'.hist == s.hist && s'.gone == s.gone && s'.tail == s.tail && s'.hunts == s.hunts && s'.tails == s.tails
    && |s'.refs| == |s.refs| && |s'.objs| == |s.objs|
  }

  /** The lock region that condemns an object: it is on the list of no ban any more, and the ban it hung on has
      one reference less. Nothing else changes. */
  lemma CondemnTakesOff(eval: Eval, magic: Spec, s: Bans, o: nat)
    requires ObjectOnly(eval) && Reachable(eval, magic, s) && Enabled(s, DoCondemn(o))
    ensures Safe(s, DoCondemn(o)) && s.ocs[o].ban.Some?
    ensures var s', b := Step(eval, s, DoCondemn(o)), s.ocs[o].ban.value;
      && OnlyHangs(s, s', o) && s'.ocs[o].on == None && Enabled(s', DoWrite(o))
      && (forall c :: 0 <= c < |s.objs| ==> o !in s'.objs[c] && s'.objs[c] == s.objs[c] - {o})
      && (forall c :: 0 <= c < |s.refs| ==> s'.refs[c] == s.refs[c] - if c == b then 1 else 0)
  {
    NoFreedBanIsTouched(eval, magic, s, DoCondemn(o));
    HangsOnOne(eval, magic, s, o);
    hide Reachable, ObjectOnly;
  }

  /** A check that skipped nothing and found nothing hangs the object on the ban that was the newest when it
      began, and on no other; the references follow. */
  lemma SettleHangs(eval: Eval, magic: Spec, s: Bans, o: nat)
    requires ObjectOnly(eval) && Reachable(eval, magic, s) && Enabled(s, DoSettle(o)) && s.ocs[o].check.skipped == 0
    ensures Safe(s, DoSettle(o)) && s.ocs[o].ban.Some?
    ensures var s', b, b0 := Step(eval, s, DoSettle(o)), s.ocs[o].ban.value, s.ocs[o].check.b0;
      && OnlyHangs(s, s', o) && s'.ocs[o].on == Some(b0) && Enabled(s', DoWrite(o))
      && (forall c :: 0 <= c < |s.objs| ==>
            (o in s'.objs[c] <==> c == b0) && s'.objs[c] - {o} == s.objs[c] - {o})
      && (forall c :: 0 <= c < |s.refs| ==>
            s'.refs[c] == s.refs[c] + (if c == b0 then 1 else 0) - (if c == b then 1 else 0))
  {
    NoFreedBanIsTouched(eval, magic, s, DoSettle(o));
    HangsOnOne(eval, magic, s, o);
    hide Reachable, ObjectOnly;
  }

  /** A check that had to skip bans and found nothing leaves the object where it was. */
  lemma GivingUpLeaves(eval: Eval, s: Bans, o: nat)
    requires Enabled(s, DoSettle(o)) && Safe(s, DoSettle(o)) && s.ocs[o].check.skipped > 0
    ensures Step(eval, s, DoSettle(o)) == s.(ocs := s.ocs[o := s.ocs[o].(check := Idle)])
  {
  }

  /** Every visit of a walk brings it one ban nearer to the object's, or stops it at a match. */
  lemma VisitAdvances(eval: Eval, s: Bans, o: nat)
    requires Enabled(s, DoVisit(o)) && Safe(s, DoVisit(o))
    ensures var s', c := Step(eval, s, DoVisit(o)), s.ocs[o].check;
      && o in s'.ocs && s'.hist == s.hist && s'.ocs[o].ban == s.ocs[o].ban
      && if c.at !in s.gone && (c.req.Some? || !IsReq(s.hist[c.at])) && eval(s.hist[c.at], s.ocs[o].http, Req(c.req))
         then s'.ocs[o].check == Hit(c.at, c.req)
         else s'.ocs[o].check.Walk? && s'.ocs[o].check.at == c.at - 1 && s'.ocs[o].check.b0 == c.b0
              && s'.ocs[o].check.req == c.req
  {
  }

  // ---- finished checks ----

  /** What the first two moves of a decided check make of its object, whatever others do in between. */
  lemma {:induction false} Finished(eval: Eval, s: Bans, moves: seq<Move>, s': Bans, o: nat)
    requires Runs(eval, s, moves, s') && Decided(s, o) && |Own(moves, o)| == 2
    ensures o in s'.ocs && s'.ocs[o].check.Idle?
    ensures s'.ocs[o].ban == if s.ocs[o].check.Hit? then None else Some(s.ocs[o].check.b0)
    ensures s'.ocs[o].on == s'.ocs[o].ban
    decreases |moves|
  {
    var s1 := Step(eval, s, moves[0]);
    if Of(moves[0]) == Some(o) {
      assert |Own(moves[1..], o)| == 1;
      Written(eval, s1, moves[1..], s', o);
    } else {
      OthersLeave(eval, s, moves[0], o);
      Finished(eval, s1, moves[1..], s', o);
    }
  }

  lemma {:induction false} Written(eval: Eval, s: Bans, moves: seq<Move>, s': Bans, o: nat)
    requires Runs(eval, s, moves, s') && |Own(moves, o)| == 1
    requires o in s.ocs && match s.ocs[o].check
      case Moved(b0) => s.ocs[o].on == Some(b0)
      case Condemned => s.ocs[o].on == None
      case _ => false
    ensures o in s'.ocs && s'.ocs[o].check.Idle? && s'.ocs[o].ban == s.ocs[o].on == s'.ocs[o].on
    decreases |moves|
  {
    var s1 := Step(eval, s, moves[0]);
    if Of(moves[0]) == Some(o) {
      Untouched(eval, s1, moves[1..], s', o);
    } else {
      OthersLeave(eval, s, moves[0], o);
      Written(eval, s1, moves[1..], s', o);
    }
  }

  lemma {:induction false} Untouched(eval: Eval, s: Bans, moves: seq<Move>, s': Bans, o: nat)
    requires Runs(eval, s, moves, s') && Own(moves, o) == [] && o in s.ocs
    ensures o in s'.ocs && s'.ocs[o] == s.ocs[o]
    decreases |moves|
  {
    if moves != [] {
      OthersLeave(eval, s, moves[0], o);
      Untouched(eval, Step(eval, s, moves[0]), moves[1..], s', o);
    }
  }

  /** A finished check by a request leaves the object without a ban pointer, on no ban's list, exactly if some
      ban newer than its pointer matched, and else on the newest ban. */
  lemma FinishedVerdict(eval: Eval, magic: Spec, s: Bans, moves: seq<Move>, s': Bans, o: nat)
    requires ObjectOnly(eval) && Reachable(eval, magic, s) && Decided(s, o)
    requires s.ocs[o].check.Walk? ==> s.ocs[o].check.req.Some? && s.ocs[o].check.b0 == |s.hist| - 1
    requires Runs(eval, s, moves, s') && |Own(moves, o)| == 2
    ensures s.ocs[o].ban.Some? && o in s'.ocs && s'.ocs[o].on == s'.ocs[o].ban
    ensures if Matched(eval, s, o) then s'.ocs[o].ban == None else s'.ocs[o].ban == Some(|s.hist| - 1)
  {
    CheckVerdict(eval, magic, s, o);
    Finished(eval, s, moves, s', o);
  }

  // ---- from the start of a check to its end ----

  /** A check begins at the newest ban, and there is none if the object hangs on that. */
  lemma StartsAtNewest(eval: Eval, s: Bans, o: nat, req: Option<Http>)
    requires Sized(s) && Enabled(s, DoStart(o, req)) && Safe(s, DoStart(o, req))
    ensures var s' := Step(eval, s, DoStart(o, req));
      s' == if s.ocs[o].ban == Some(|s.hist| - 1) then s
            else s.(ocs := s.ocs[o := s.ocs[o].(check := Walk(|s.hist| - 1, |s.hist| - 1, 0, req))])
  {
  }

  predicate AllVisits(moves: seq<Move>) { forall i :: 0 <= i < |moves| ==> moves[i].DoVisit? }

  predicate NoInserts(moves: seq<Move>) { forall i :: 0 <= i < |moves| ==> !moves[i].DoInsert? }

  /** A check on its way: begun at `b0` for `req`. */
  predicate Begun(oc: Oc, b0: nat, req: Option<Http>) {
    match oc.check
    case Walk(b, _, _, r) => b == b0 && r == req
    case Hit(_, r) => r == req
    case _ => false
  }

  lemma VisitKeepsBegun(eval: Eval, s: Bans, o: nat, b0: nat, req: Option<Http>)
    requires Enabled(s, DoVisit(o)) && Safe(s, DoVisit(o)) && Begun(s.ocs[o], b0, req)
    ensures var s' := Step(eval, s, DoVisit(o));
      o in s'.ocs && Begun(s'.ocs[o], b0, req) && s'.ocs[o].ban == s.ocs[o].ban && s'.ocs[o].http == s.ocs[o].http
  {
  }

  /** Visits leave it so, and whatever others do. */
  lemma {:induction false} StaysBegun(eval: Eval, s: Bans, moves: seq<Move>, s': Bans, o: nat, b0: nat,
                                      req: Option<Http>)
    requires Runs(eval, s, moves, s') && o in s.ocs && Begun(s.ocs[o], b0, req) && AllVisits(Own(moves, o))
    ensures o in s'.ocs && Begun(s'.ocs[o], b0, req)
    ensures s'.ocs[o].ban == s.ocs[o].ban && s'.ocs[o].http == s.ocs[o].http
    decreases |moves|
  {
    if moves != [] {
      var own := Own(moves[1..], o);
      if Of(moves[0]) == Some(o) {
        assert Own(moves, o) == [moves[0]] + own && Own(moves, o)[0] == moves[0];
        forall i | 0 <= i < |own| ensures own[i].DoVisit? { assert own[i] == Own(moves, o)[i + 1]; }
        VisitKeepsBegun(eval, s, o, b0, req);
      } else {
        OthersLeave(eval, s, moves[0], o);
        assert Own(moves, o) == own;
      }
      StaysBegun(eval, Step(eval, s, moves[0]), moves[1..], s', o, b0, req);
    }
  }

  lemma {:induction false} NothingInserted(moves: seq<Move>)
    requires NoInserts(moves)
    ensures Inserted(moves) == []
  {
    if moves != [] {
      forall i | 0 <= i < |moves[1..]| ensures !moves[1..][i].DoInsert? { assert moves[1..][i] == moves[i + 1]; }
      NothingInserted(moves[1..]);
    }
  }

  /** From start to end: when no ban is inserted during the walk, a request's check leaves the object without a ban
      pointer if some ban newer than its old one matches, and else on the newest. */
  lemma StartedToFinished(eval: Eval, magic: Spec, s0: Bans, o: nat, r: Http, walk: seq<Move>, s: Bans,
                          moves: seq<Move>, s': Bans)
    requires ObjectOnly(eval) && Reachable(eval, magic, s0) && Sized(s0)
    requires Enabled(s0, DoStart(o, Some(r))) && Safe(s0, DoStart(o, Some(r))) && s0.ocs[o].ban != Some(|s0.hist| - 1)
    requires Runs(eval, Step(eval, s0, DoStart(o, Some(r))), walk, s) && NoInserts(walk) && AllVisits(Own(walk, o))
    requires Decided(s, o) && Runs(eval, s, moves, s') && |Own(moves, o)| == 2
    ensures s0.ocs[o].ban.Some? && o in s'.ocs && s'.ocs[o].on == s'.ocs[o].ban
    ensures s'.ocs[o].ban ==
      if exists k {:trigger s0.hist[k]} :: s0.ocs[o].ban.value < k < |s0.hist| && eval(s0.hist[k], s0.ocs[o].http, r)
      then None else Some(|s0.hist| - 1)
  {
    var m, n := DoStart(o, Some(r)), |s0.hist|;
    StartsAtNewest(eval, s0, o, Some(r));
    var s1 := Step(eval, s0, m);
    ReachableOn(eval, magic, s0, m, walk, s);
    StaysBegun(eval, s1, walk, s, o, n - 1, Some(r));
    HistoryIsInserts(eval, s1, walk, s);
    NothingInserted(walk);
    hide Runs, Step, Enabled, Safe, Inserted;
    assert s.hist == s0.hist;
    FinishedVerdict(eval, magic, s, moves, s', o);
  }

  // ---- condemned for good ----

  /** Condemned, with the ban pointer gone. */
  predicate Out(s: Bans, o: nat) { o in s.ocs && s.ocs[o].check.Idle? && s.ocs[o].ban.None? }

  /** An object without a ban pointer is never checked again and never gets one, until it is destroyed. */
  lemma {:induction false} OutForGood(eval: Eval, s: Bans, moves: seq<Move>, s': Bans, o: nat)
    requires Runs(eval, s, moves, s') && Out(s, o) && DoDestroy(o) !in moves
    ensures Out(s', o) && forall req :: !Enabled(s', DoStart(o, req))
    decreases |moves|
  {
    if moves != [] {
      if Of(moves[0]) != Some(o) { OthersLeave(eval, s, moves[0], o); }
      OutForGood(eval, Step(eval, s, moves[0]), moves[1..], s', o);
    }
  }

  /** So a hit takes the object out for good, whatever happens between the match and its removal. */
  lemma {:induction false} HitIsFinal(eval: Eval, s: Bans, moves: seq<Move>, s': Bans, o: nat)
    requires Runs(eval, s, moves, s') && o in s.ocs && s.ocs[o].check.Hit? && DoDestroy(o) !in moves
    requires |Own(moves, o)| >= 2
    ensures Out(s', o) && forall req :: !Enabled(s', DoStart(o, req))
    decreases |moves|
  {
    var s1, rest := Step(eval, s, moves[0]), moves[1..];
    if Of(moves[0]) == Some(o) {
      CondemnedIsFinal(eval, s1, rest, s', o);
    } else {
      OthersLeave(eval, s, moves[0], o);
      HitIsFinal(eval, s1, rest, s', o);
    }
  }

  lemma {:induction false} CondemnedIsFinal(eval: Eval, s: Bans, moves: seq<Move>, s': Bans, o: nat)
    requires Runs(eval, s, moves, s') && o in s.ocs && s.ocs[o].check.Condemned? && DoDestroy(o) !in moves
    requires |Own(moves, o)| >= 1
    ensures Out(s', o) && forall req :: !Enabled(s', DoStart(o, req))
    decreases |moves|
  {
    var s1, rest := Step(eval, s, moves[0]), moves[1..];
    if Of(moves[0]) == Some(o) {
      OutForGood(eval, s1, rest, s', o);
    } else {
      OthersLeave(eval, s, moves[0], o);
      CondemnedIsFinal(eval, s1, rest, s', o);
    }
  }

  // ---- from the creation of an object on ----

  /** The bans that a run inserts, in order. */
  function Inserted(moves: seq<Move>): seq<Spec> {
    if moves == [] then []
    else (if moves[0].DoInsert? then [moves[0].spec] else []) + Inserted(moves[1..])
  }

  lemma {:induction false} HistoryIsInserts(eval: Eval, s: Bans, moves: seq<Move>, s': Bans)
    requires Runs(eval, s, moves, s')
    ensures s'.hist == s.hist + Inserted(moves)
    decreases |moves|
  {
    hide Step, Enabled, Safe;
    if moves != [] {
      StepHistory(eval, s, moves[0]);
      HistoryIsInserts(eval, Step(eval, s, moves[0]), moves[1..], s');
    }
  }

  lemma StepHistory(eval: Eval, s: Bans, m: Move)
    requires Safe(s, m)
    ensures Step(eval, s, m).hist == s.hist + if m.DoInsert? then [m.spec] else []
  {
  }

  lemma {:induction false} StaysItself(eval: Eval, s: Bans, moves: seq<Move>, s': Bans, o: nat)
    requires Runs(eval, s, moves, s') && o in s.ocs && DoDestroy(o) !in moves
    ensures o in s'.ocs && s'.ocs[o].birth == s.ocs[o].birth && s'.ocs[o].http == s.ocs[o].http
    decreases |moves|
  {
    if moves != [] {
      if Of(moves[0]) != Some(o) { OthersLeave(eval, s, moves[0], o); }
      StaysItself(eval, Step(eval, s, moves[0]), moves[1..], s', o);
    }
  }

  /** From creation to the end of a check, over the whole run: when the bans inserted since are on the object
      alone, the object loses its ban pointer exactly if one of them matches it. */
  lemma CreatedToFinished(eval: Eval, magic: Spec, s0: Bans, o: nat, http: Http, since: seq<Move>, s: Bans,
                          moves: seq<Move>, s': Bans, r: Http)
    requires ObjectOnly(eval) && Reachable(eval, magic, s0)
    requires Enabled(s0, DoNewObj(o, http)) && Safe(s0, DoNewObj(o, http))
    requires Runs(eval, Step(eval, s0, DoNewObj(o, http)), since, s) && DoDestroy(o) !in since
    requires Decided(s, o) && (s.ocs[o].check.Walk? ==> s.ocs[o].check.b0 == |s.hist| - 1)
    requires forall spec :: spec in Inserted(since) ==> !IsReq(spec)
    requires Runs(eval, s, moves, s') && |Own(moves, o)| == 2
    ensures o in s'.ocs && s'.ocs[o].on == s'.ocs[o].ban
    ensures s'.ocs[o].ban.None? <==> exists spec :: spec in Inserted(since) && eval(spec, http, r)
  {
    var s1 := Step(eval, s0, DoNewObj(o, http));
    ReachableOn(eval, magic, s0, DoNewObj(o, http), since, s);
    HistoryIsInserts(eval, s1, since, s);
    StaysItself(eval, s1, since, s, o);
    var n, ins := |s0.hist|, Inserted(since);
    assert s.ocs[o].birth == n - 1 && s.ocs[o].http == http && s.hist == s0.hist + ins;
    hide Runs, Step, Enabled, Safe, Inserted;
    SinceBirth(eval, s0.hist, ins, http, r);
    LazyIsEager(eval, magic, s, o, r);
    Finished(eval, s, moves, s', o);
  }

  /** The bans behind those there were at first. */
  lemma SinceBirth(eval: Eval, before: seq<Spec>, ins: seq<Spec>, http: Http, r: Http)
    ensures var hist := before + ins;
      && (forall k :: |before| <= k < |hist| ==> hist[k] in ins)
      && ((exists k {:trigger hist[k]} :: |before| - 1 < k < |hist| && eval(hist[k], http, r))
          <==> exists spec :: spec in ins && eval(spec, http, r))
  {
    var hist := before + ins;
    if spec :| spec in ins && eval(spec, http, r) {
      var i :| 0 <= i < |ins| && ins[i] == spec;
      assert hist[|before| + i] == spec;
    }
  }

  lemma ReachableOn(eval: Eval, magic: Spec, s: Bans, m: Move, moves: seq<Move>, s': Bans)
    requires Reachable(eval, magic, s) && Enabled(s, m) && Safe(s, m) && Runs(eval, Step(eval, s, m), moves, s')
    ensures Reachable(eval, magic, s')
  {
    var before :| Runs(eval, Init(magic), before, s);
    First(eval, s, m, moves, s');
    RunsJoin(eval, Init(magic), before, s, [m] + moves, s');
  }

  lemma {:induction false} RunsJoin(eval: Eval, s: Bans, a: seq<Move>, t: Bans, b: seq<Move>, u: Bans)
    requires Runs(eval, s, a, t) && Runs(eval, t, b, u)
    ensures Runs(eval, s, a + b, u)
    decreases |a|
  {
    if a == [] {
      assert a + b == b;
    } else {
      assert (a + b)[0] == a[0] && (a + b)[1..] == a[1..] + b;
      RunsJoin(eval, Step(eval, s, a[0]), a[1..], t, b, u);
    }
  }

  // ---- duplicates get marked ----

  /** A hunt has marked all copies it came past. */
  ghost predicate MarkedBehind(s: Bans) {
    forall h, k {:trigger s.hunts[h], s.hist[k]} ::
      h in s.hunts && h < |s.hist| && s.hunts[h].at <= k < h && s.hist[k] == s.hist[h] ==> k in s.gone
  }

  lemma StepMarks(eval: Eval, s: Bans, m: Move)
    requires MarkedBehind(s) && HuntsOK(s) && Enabled(s, m) && Safe(s, m)
    ensures MarkedBehind(Step(eval, s, m))
    ensures s.gone <= Step(eval, s, m).gone
  {
    match m
    case DoInsert(spec, dups) => InsertMarks(s, spec, dups);
    case DoHunt(h) => HuntMarks(s, h);
    case DoHuntEnd(h) =>
    case DoNewObj(o, http) =>
    case DoDestroy(o) => DestroyMarks(s, o);
    case DoStart(o, req) =>
    case DoVisit(o) =>
    case DoSettle(o) =>
    case DoCondemn(o) =>
    case DoWrite(o) =>
    case DoRetire =>
    case DoTailRef =>
    case DoTailDeref(b) =>
  }

  lemma InsertMarks(s: Bans, spec: Spec, dups: bool)
    requires MarkedBehind(s) && HuntsOK(s) && Sized(s)
    ensures MarkedBehind(Insert(s, spec, dups))
  {
    forall h | h in s.hunts ensures h < |s.hist| { assert HuntOK(s, h); }
  }

  lemma HuntMarks(s: Bans, h: nat)
    requires MarkedBehind(s) && Enabled(s, DoHunt(h)) && Safe(s, DoHunt(h))
    ensures MarkedBehind(HuntOn(s, h))
  {
  }

  lemma DestroyMarks(s: Bans, o: nat)
    requires MarkedBehind(s) && Safe(s, DoDestroy(o))
    ensures MarkedBehind(Destroy(s, o)) && Destroy(s, o).gone == s.gone
  {
  }

  lemma {:induction false} RunMarks(eval: Eval, s: Bans, moves: seq<Move>, s': Bans)
    requires ObjectOnly(eval) && Inv(eval, s) && MarkedBehind(s) && Runs(eval, s, moves, s')
    ensures MarkedBehind(s') && s.gone <= s'.gone
    decreases |moves|
  {
    hide MarkedBehind, Inv, Enabled, Safe;
    if moves != [] {
      var s1 := Step(eval, s, moves[0]);
      InvHunts(eval, s);
      StepMarks(eval, s, moves[0]);
      StepKeepsInv(eval, s, moves[0]);
      RunMarks(eval, s1, moves[1..], s');
    }
  }

  lemma InvHunts(eval: Eval, s: Bans)
    requires Inv(eval, s)
    ensures HuntsOK(s)
  {
  }

  /** When a hunt for duplicates is through, every older copy of its ban down to where it ends is marked, and
      stays so in every run from there. */
  lemma HuntedDuplicatesAreGone(eval: Eval, magic: Spec, s: Bans, h: nat, moves: seq<Move>, s': Bans, k: nat)
    requires ObjectOnly(eval) && Reachable(eval, magic, s) && Enabled(s, DoHuntEnd(h)) && Runs(eval, s, moves, s')
    requires s.hunts[h].be <= k < h
    ensures h < |s.hist| && (s.hist[k] == s.hist[h] ==> k in s.gone && k in s'.gone)
  {
    ReachableInv(eval, magic, s);
    assert HuntOK(s, h);
    var before :| Runs(eval, Init(magic), before, s);
    InitInv(eval, magic);
    RunMarks(eval, Init(magic), before, s);
    RunMarks(eval, s, moves, s');
    hide Runs, Inv;
    var _ := s.hist[k];
  }

  /** An insert that is to look for duplicates starts a hunt behind the new ban, down to the last of the list, and
      holds that in the list. */
  lemma InsertStartsHunt(eval: Eval, s: Bans, spec: Spec, dups: bool)
    requires Sized(s) && HuntsOK(s)
    ensures var s', b := Step(eval, s, DoInsert(spec, dups)), |s.hist|;
      && Sized(s') && s'.hist == s.hist + [spec] && b !in s.hunts
      && (if dups then s'.hunts == s.hunts[b := Hunt(b, s.tail)] else s'.hunts == s.hunts)
      && forall c :: 0 <= c <= b ==>
           s'.refs[c] == (if c < b then s.refs[c] else 0) + if dups && c == s.tail then 1 else 0
  {
    forall h | h in s.hunts ensures h < |s.hist| { assert HuntOK(s, h); }
  }

  lemma {:induction false} HuntKeepsEnd(eval: Eval, s: Bans, moves: seq<Move>, s': Bans, h: nat)
    requires Runs(eval, s, moves, s') && h in s.hunts && h < |s.hist| && DoHuntEnd(h) !in moves
    ensures h in s'.hunts && s'.hunts[h].be == s.hunts[h].be
    decreases |moves|
  {
    if moves != [] {
      StepHistory(eval, s, moves[0]);
      HuntStepKeepsEnd(eval, s, moves[0], h);
      HuntKeepsEnd(eval, Step(eval, s, moves[0]), moves[1..], s', h);
    }
  }

  lemma HuntStepKeepsEnd(eval: Eval, s: Bans, m: Move, h: nat)
    requires Safe(s, m) && h in s.hunts && h < |s.hist| && m != DoHuntEnd(h)
    ensures h in Step(eval, s, m).hunts && Step(eval, s, m).hunts[h].be == s.hunts[h].be
  {
  }

  /** So every older copy in the list of a ban inserted with duplicates to be looked for is marked by the time its
      hunt ends, and stays so. */
  lemma InsertedDuplicatesGo(eval: Eval, magic: Spec, s0: Bans, spec: Spec, hunting: seq<Move>, s: Bans,
                             moves: seq<Move>, s': Bans, k: nat)
    requires ObjectOnly(eval) && Reachable(eval, magic, s0) && Sized(s0)
    requires Runs(eval, Insert(s0, spec, true), hunting, s) && DoHuntEnd(|s0.hist|) !in hunting
    requires Enabled(s, DoHuntEnd(|s0.hist|)) && Runs(eval, s, moves, s')
    requires s0.tail <= k < |s0.hist| && s0.hist[k] == spec
    ensures k in s.gone && k in s'.gone
  {
    ReachableInv(eval, magic, s0);
    var b, m := |s0.hist|, DoInsert(spec, true);
    InsertStartsHunt(eval, s0, spec, true);
    var s1 := Step(eval, s0, m);
    ReachableOn(eval, magic, s0, m, hunting, s);
    HuntKeepsEnd(eval, s1, hunting, s, b);
    HistoryIsInserts(eval, s1, hunting, s);
    hide Runs;
    HuntedDuplicatesAreGone(eval, magic, s, b, moves, s', k);
  }

  // ---- retirement ----

  /** The last ban retires exactly if it is not the newest, no object hangs on it, no hunt ends at it and no
      tail reference holds it. */
  lemma RetiresExactly(eval: Eval, magic: Spec, s: Bans)
    requires ObjectOnly(eval) && Reachable(eval, magic, s)
    ensures Sized(s) && Safe(s, DoRetire)
    ensures var s', t := Step(eval, s, DoRetire), s.tail;
      s' == if t < |s.hist| - 1 && s.objs[t] == {} && (forall h :: h in s.hunts ==> s.hunts[h].be != t) && t !in s.tails
            then s.(tail := t + 1) else s
  {
    ReachableInv(eval, magic, s);
    TailCount(s);
  }

  lemma TailCount(s: Bans)
    requires Sized(s) && RefsOK(s)
    ensures s.refs[s.tail] >= |s.objs[s.tail]|
    ensures s.refs[s.tail] == |s.objs[s.tail]|
      <==> (forall h :: h in s.hunts ==> s.hunts[h].be != s.tail) && s.tail !in s.tails
  {
    var t := s.tail;
    assert s.refs[t] == |s.objs[t]| + |Ends(s, t)| + s.tails[t];
    if h :| h in s.hunts && s.hunts[h].be == t { assert h in Ends(s, t); }
    if Ends(s, t) != {} { var h :| h in Ends(s, t); }
  }

  /** Destroying an object takes it off its ban, and may let the last ban retire. */
  lemma DestroyTakesOff(eval: Eval, magic: Spec, s: Bans, o: nat)
    requires ObjectOnly(eval) && Reachable(eval, magic, s) && Enabled(s, DoDestroy(o))
    ensures Safe(s, DoDestroy(o))
    ensures var s', t := Step(eval, s, DoDestroy(o)), s.tail;
      && s'.ocs == s.ocs - {o} && s'.hist == s.hist && s'.gone == s.gone && s'.hunts == s.hunts && s'.tails == s.tails
      && |s'.objs| == |s.objs| && (forall c :: 0 <= c < |s.objs| ==> o !in s'.objs[c] && s'.objs[c] == s.objs[c] - {o})
      && s'.tail == if s.ocs[o].ban.Some? && t < |s.hist| - 1 && s.objs[t] - {o} == {}
                       && (forall h :: h in s.hunts ==> s.hunts[h].be != t) && t !in s.tails
                    then t + 1 else t
  {
    hide Reachable, ObjectOnly, Inv;
    NoFreedBanIsTouched(eval, magic, s, DoDestroy(o));
    ReachableInv(eval, magic, s);
    InvParts(eval, s);
    IdleHangs(s, o);
    TailCount(s);
    hide RefsOK, ListsOK, OcsOK, Safe, TakeOff, CheckLast, Destroy;
    DestroyedRest(s, o);
    DestroyedTail(s, o);
  }

  lemma DestroyedRest(s: Bans, o: nat)
    requires Safe(s, DoDestroy(o))
    requires forall c :: 0 <= c < |s.objs| ==> (o in s.objs[c] <==> s.ocs[o].ban == Some(c))
    ensures var s' := Destroy(s, o);
      && s'.ocs == s.ocs - {o} && s'.hist == s.hist && s'.gone == s.gone && s'.hunts == s.hunts && s'.tails == s.tails
      && |s'.objs| == |s.objs| && (forall c :: 0 <= c < |s.objs| ==> o !in s'.objs[c] && s'.objs[c] == s.objs[c] - {o})
  {
  }

  lemma DestroyedTail(s: Bans, o: nat)
    requires Safe(s, DoDestroy(o))
    requires forall c :: 0 <= c < |s.objs| ==> (o in s.objs[c] <==> s.ocs[o].ban == Some(c))
    requires s.refs[s.tail] >= |s.objs[s.tail]|
    ensures Destroy(s, o).tail ==
      if s.ocs[o].ban.Some? && s.tail < |s.hist| - 1 && s.objs[s.tail] - {o} == {}
         && s.refs[s.tail] == |s.objs[s.tail]|
      then s.tail + 1 else s.tail
  {
    if s.ocs[o].ban.Some? { TakenOff(s, o); }
  }

  lemma InvParts(eval: Eval, s: Bans)
    requires Inv(eval, s)
    ensures Sized(s) && RefsOK(s) && ListsOK(s) && OcsOK(s)
  {
  }

  lemma IdleHangs(s: Bans, o: nat)
    requires Sized(s) && ListsOK(s) && OcsOK(s) && o in s.ocs && s.ocs[o].check.Idle?
    ensures forall c :: 0 <= c < |s.objs| ==> (o in s.objs[c] <==> s.ocs[o].ban == Some(c))
  {
    assert OcOK(s, s.ocs[o]);
  }

  lemma TakenOff(s: Bans, o: nat)
    requires Safe(s, DoDestroy(o)) && s.ocs[o].ban.Some?
    requires forall c :: 0 <= c < |s.objs| ==> (o in s.objs[c] <==> s.ocs[o].ban == Some(c))
    requires s.refs[s.tail] >= |s.objs[s.tail]|
    ensures var s1 := TakeOff(s, o, s.ocs[o].ban.value);
      && s1.objs[s.tail] == s.objs[s.tail] - {o}
      && (s1.refs[s.tail] == 0 <==> s.objs[s.tail] - {o} == {} && s.refs[s.tail] == |s.objs[s.tail]|)
  {
    var t := s.tail;
    if o in s.objs[t] { assert |s.objs[t] - {o}| == |s.objs[t]| - 1; } else { assert s.objs[t] - {o} == s.objs[t]; }
  }
}
