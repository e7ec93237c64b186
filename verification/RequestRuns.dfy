/** Whole runs of the request state machine, ESI sub-requests included. */
module RequestRuns {
  import opened Wrappers
  import opened RequestMachine

  datatype Result = Finished | Parked | Panicked

  /** The start of cnt_deliver. */
  function Delivering(v: Sess): Sess { v.(director := Off, restarts := 0) }

  /** ved_include sets the session up for a sub-request; the object being delivered waits. */
  function SubRequest(v: Sess): Sess {
    var b := v.books;
    Plainly(v).(step := RECV, esi_level := v.esi_level + 1, director := Off, obj := None,
                books := b.(waiting := b.waiting + if v.obj.Some? then {IdOf(v.obj.value)} else {}))
  }

  /** And afterwards goes back to the delivery. */
  function Resume(sub: Sess, v: Sess): Sess {
    sub.(step := DELIVER, esi_level := v.esi_level, obj := v.obj,
         books := sub.books.(waiting := v.books.waiting))
  }

  lemma SubRequestGood(v: Sess, l: Limits)
    requires Good(v, l) && v.step.DELIVER? && v.esi_level < l.max_esi_depth && v.restarts == 0
    ensures Good(SubRequest(v), l) && SubRequest(v).stale.On? == v.stale.On?
  {
    assert Mine(v.obj, None) == {IdOf(v.obj.value)} && Mine(None, None) == {};
  }

  /** Nothing of a request is left in the session. */
  ghost predicate Ended(v: Sess, l: Limits) {
    && Good(v, l) && v.step.DONE? && v.restarts == 0 && !v.director.On? && Alone(v) && Clean(v) && Plain(v)
    && (v.vcl.On? ==> v.esi_level > 0) && (v.wrk.vfp.On? <==> v.stale.On?)
  }

  lemma ResumeGood(sub: Sess, v: Sess, l: Limits)
    requires Good(v, l) && v.step.DELIVER? && v.restarts == 0 && v.esi_level < l.max_esi_depth
    requires Ended(sub, l) && sub.esi_level == v.esi_level + 1
    requires sub.books.waiting == SubRequest(v).books.waiting
    ensures Good(Resume(sub, v), l)
  {
    assert Mine(v.obj, None) == {IdOf(v.obj.value)} && Mine(None, None) == {};
    assert Mine(v.obj, None) !! v.books.waiting;
  }

  lemma DoneEnds(v: Sess, l: Limits)
    requires Good(v, l) && v.step.DONE?
    ensures Ended(CntDone(v), l)
  {
    hide Ledger;
  }

  lemma DeliveredKeeps(v: Sess, l: Limits)
    requires Good(v, l) && v.step.DELIVER?
    ensures Onward(v, Delivered(v), l) && Good(Delivering(v), l) && Distance(Delivering(v), l) == Distance(v, l)
  {
    hide Ledger;
    DropObjLedger(v);
  }

  /** What a run from `v` on has come to. */
  ghost predicate ComesTo(v: Sess, f: nat -> Answer, l: Limits, r: (Result, Sess, nat)) {
    var (res, v', _) := r;
    && (res.Finished? ==> Ended(v', l) && v'.esi_level == v.esi_level && v'.books.waiting == v.books.waiting)
    && (res.Parked? ==> Good(v', l) && v'.step.LOOKUP? && v'.hash_objhead.On? && v.esi_level == 0)
    && (res.Panicked? ==> v'.stale.On?)
  }

  /** CNT_Session: the steps from `v` on, with the answers from `t` on. It always comes to an end. */
  function Run(v: Sess, f: nat -> Answer, t: nat, l: Limits): (r: (Result, Sess, nat))
    requires Good(v, l)
    ensures ComesTo(v, f, l, r)
    decreases l.max_esi_depth - v.esi_level, Distance(v, l), 1, 0
  {
    if v.step.DONE? then
      DoneEnds(v, l);
      (Finished, CntDone(v), t)
    else if Stuck(v) then
      StuckIsStale(v, l);
      (Panicked, v, t)
    else if Parks(v, f(t)) then
      LookupKeeps(v, f(t), l);
      (Parked, CntLookup(v, f(t)), t + 1)
    else if v.step.DELIVER? then
      DeliveredKeeps(v, l);
      var (res, v1, t1) := Includes(Delivering(v), f(t).includes, f, t + 1, l);
      if res.Finished? then
        DeliveredKeeps(v1, l);
        Run(Delivered(v1), f, t1, l)
      else (res, v1, t1)
    else
      TurnKeeps(v, f(t), l);
      Run(Turn(v, f(t), l), f, t + 1, l)
  }

  /** The includes of an object in delivery. */
  function Includes(v: Sess, n: nat, f: nat -> Answer, t: nat, l: Limits): (r: (Result, Sess, nat))
    requires Good(v, l) && v.step.DELIVER? && v.restarts == 0
    ensures r.0.Finished? ==>
      Good(r.1, l) && r.1.step.DELIVER? && r.1.restarts == 0 && r.1.esi_level == v.esi_level
      && r.1.books.waiting == v.books.waiting
    ensures !r.0.Finished? ==> r.0.Panicked? && r.1.stale.On?
    decreases l.max_esi_depth - v.esi_level, Distance(v, l), 0, n
  {
    if n == 0 || v.esi_level >= l.max_esi_depth then (Finished, v, t)
    else
      SubRequestGood(v, l);
      var (res, v1, t1) := Run(SubRequest(v), f, t, l);
      if res.Finished? then
        ResumeGood(v1, v, l);
        Includes(Resume(v1, v), n - 1, f, t1, l)
      else (res, v1, t1)
  }

  /** One turn of a run. */
  lemma RunTurn(v: Sess, f: nat -> Answer, t: nat, l: Limits)
    requires Good(v, l) && !v.step.DONE? && !v.step.DELIVER?
    ensures Stuck(v) ==> Run(v, f, t, l) == (Panicked, v, t)
    ensures !Stuck(v) && Parks(v, f(t)) ==> Run(v, f, t, l) == (Parked, Turn(v, f(t), l), t + 1)
    ensures !Stuck(v) && !Parks(v, f(t)) ==>
      var v' := Turn(v, f(t), l);
      && Good(v', l) && Distance(v', l) < Distance(v, l) && v'.esi_level == v.esi_level
      && Run(v, f, t, l) == Run(v', f, t + 1, l)
  {
    hide Good, Turn, CntLookup;
    if Stuck(v) {
    } else if Parks(v, f(t)) {
      ParkedTurn(v, f(t), l);
    } else {
      TurnKeeps(v, f(t), l);
      OnwardMeans(v, Turn(v, f(t), l), l);
    }
  }

  lemma ParkedTurn(v: Sess, a: Answer, l: Limits)
    requires Parks(v, a)
    ensures Turn(v, a, l) == CntLookup(v, a)
  {
  }

  lemma OnwardMeans(v: Sess, v': Sess, l: Limits)
    requires Onward(v, v', l)
    ensures Good(v', l) && Distance(v', l) < Distance(v, l) && v'.esi_level == v.esi_level
  {
  }

  lemma BeginGood(l: Limits)
    ensures Good(Begin, l)
  {
    assert Mine(None, None) == {};
  }

  /** A request that finishes has released its object, its object core and its backend connection, and each
      reference it took was dropped once; what it counted and set on the way is cleared. */
  lemma FinishedReleasesAll(f: nat -> Answer, l: Limits)
    ensures Good(Begin, l)
    ensures var (res, v, _) := Run(Begin, f, 0, l);
      res.Finished? ==>
        && Ended(v, l) && !v.vcl.On? && v.books.held == {}
        && forall i: nat :: i in v.books.dropped <==> i < v.books.next
  {
    BeginGood(l);
    var v := Run(Begin, f, 0, l).1;
    assert Mine(None, None) == {};
  }

  /** A parked request holds nothing but its reference to the object head. */
  lemma ParkedHoldsNothing(f: nat -> Answer, l: Limits)
    ensures Good(Begin, l)
    ensures var (res, v, _) := Run(Begin, f, 0, l);
      res.Parked? ==>
        && v.step.LOOKUP? && v.hash_objhead.On? && Alone(v) && Clean(v) && Plain(v)
        && v.restarts < l.max_restarts
  {
    BeginGood(l);
  }

  // ---- when the assertion on the filter can fail ----

  ghost predicate NeverRestarted(f: nat -> Answer) { forall t: nat :: !f(t).deliver.DeliverRestart? }

  ghost predicate NeverFiltered(f: nat -> Answer) { forall t: nat :: !f(t).filter }

  ghost predicate NeverStreamed(f: nat -> Answer) { forall t: nat :: !f(t).header.stream }

  /** No filter was left behind, and none will be: vcl_deliver does not restart, or no body needs a filter, or
      none is streamed. */
  ghost predicate Harmless(v: Sess, f: nat -> Answer) {
    !v.stale.On?
    && (NeverRestarted(f) || (NeverFiltered(f) && !(v.wrk.do_stream.On? && v.wrk.vfp.On?))
        || (NeverStreamed(f) && !v.wrk.do_stream.On?))
  }

  lemma TurnHarmless(v: Sess, f: nat -> Answer, t: nat, l: Limits)
    requires Good(v, l) && !Stuck(v) && Harmless(v, f)
    ensures Harmless(Turn(v, f(t), l), f)
  {
    hide Ledger;
    match v.step
    case FETCH => FetchHarmless(v, f, t);
    case FETCHBODY => BodyHarmless(v, f, t);
    case _ =>
  }

  lemma FetchHarmless(v: Sess, f: nat -> Answer, t: nat)
    requires v.step.FETCH? && Harmless(v, f) && !v.wrk.vfp.On?
    ensures Harmless(CntFetch(v, f(t)), f)
  {
    FetchLeaves(v, f(t));
    hide CntFetch;
  }

  /** What cnt_fetch leaves of the flags. */
  lemma FetchLeaves(v: Sess, a: Answer)
    ensures var v' := CntFetch(v, a);
      && v'.wrk.vfp == v.wrk.vfp && v'.stale == v.stale
      && v'.wrk.do_stream.On? == if a.fetch.NoHeader? then v.wrk.do_stream.On? else a.header.stream
  {
    var v1 := GotHeader(v, a.header);
    GiveUpLeaves(v);
    LetGoLeaves(v1);
    GiveUpLeaves(LetGo(v1));
    assert Flags(v1) == (v.wrk.vfp, Set(a.header.stream), v.stale);
    hide GiveUp, LetGo, GotHeader;
  }

  /** The flags that matter to the filter. */
  function Flags(v: Sess): (Flag, Flag, Flag) { (v.wrk.vfp, v.wrk.do_stream, v.stale) }

  lemma GiveUpLeaves(v: Sess)
    ensures Flags(GiveUp(v)) == Flags(v)
  {
  }

  lemma LetGoLeaves(v: Sess)
    ensures Flags(LetGo(v)) == Flags(v)
  {
  }

  lemma ObjectLeaves(v: Sess)
    ensures Flags(Unbusy(v)) == Flags(DropObj(v)) == Flags(Forget(v)) == Flags(v)
  {
  }

  lemma BodyHarmless(v: Sess, f: nat -> Answer, t: nat)
    requires v.step.FETCHBODY? && Harmless(v, f) && !v.wrk.vfp.On? && v.obj == None
    ensures Harmless(CntFetchbody(v, f(t)), f)
  {
    BodyLeaves(v, f(t));
    hide CntFetchbody;
  }

  /** What cnt_fetchbody leaves of them: a filter only when the body is streamed and needs one. */
  lemma BodyLeaves(v: Sess, a: Answer)
    requires v.obj == None
    ensures var v' := CntFetchbody(v, a);
      && v'.stale == v.stale && (v'.wrk.do_stream.On? ==> v.wrk.do_stream.On? && v'.wrk.vfp.On? == a.filter)
  {
    var p := Prepared(v, a);
    PreparedHas(v, a);
    FetchedLeaves(p);
    var q := Fetched(p);
    ObjectLeaves(q);
    ObjectLeaves(Unbusy(q));
    hide Prepared, Fetched, Unbusy, DropObj;
  }

  lemma FetchedLeaves(v: Sess)
    ensures Flags(Fetched(v)) == (Off, v.wrk.do_stream, v.stale)
  {
  }

  lemma {:induction false} HarmlessNeverPanics(v: Sess, f: nat -> Answer, t: nat, l: Limits)
    requires Good(v, l) && Harmless(v, f)
    ensures var r := Run(v, f, t, l); !r.0.Panicked? && Harmless(r.1, f)
    decreases l.max_esi_depth - v.esi_level, Distance(v, l), 1, 0
  {
    if v.step.DONE? {
    } else if Stuck(v) {
      StuckIsStale(v, l);
    } else if Parks(v, f(t)) {
    } else if v.step.DELIVER? {
      DeliveredKeeps(v, l);
      IncludesHarmless(Delivering(v), f(t).includes, f, t + 1, l);
      var (res, v1, t1) := Includes(Delivering(v), f(t).includes, f, t + 1, l);
      DeliveredKeeps(v1, l);
      HarmlessNeverPanics(Delivered(v1), f, t1, l);
    } else {
      TurnKeeps(v, f(t), l);
      TurnHarmless(v, f, t, l);
      HarmlessNeverPanics(Turn(v, f(t), l), f, t + 1, l);
    }
  }

  lemma {:induction false} IncludesHarmless(v: Sess, n: nat, f: nat -> Answer, t: nat, l: Limits)
    requires Good(v, l) && v.step.DELIVER? && v.restarts == 0 && Harmless(v, f)
    ensures var r := Includes(v, n, f, t, l); r.0.Finished? && Harmless(r.1, f)
    decreases l.max_esi_depth - v.esi_level, Distance(v, l), 0, n
  {
    if n > 0 && v.esi_level < l.max_esi_depth {
      SubRequestGood(v, l);
      HarmlessNeverPanics(SubRequest(v), f, t, l);
      var (res, v1, t1) := Run(SubRequest(v), f, t, l);
      ResumeGood(v1, v, l);
      IncludesHarmless(Resume(v1, v), n - 1, f, t1, l);
    }
  }

  /** The request is passed, its body streamed through a filter, and restarted by vcl_deliver. */
  const Streaming := Answer(Fine, RecvPass, SubPass, Inserted, SubInserted, HitDeliver, MissFetch, PassPass,
                            Header(false, false, false, true, false), FetchDeliver, true, true, true, true,
                            DeliverRestart, ErrorDeliver, 0)

  /** From START or RECV to the body of a passed request. */
  lemma ToTheBody(v: Sess, f: nat -> Answer, t: nat, l: Limits) returns (w: Sess)
    requires Good(v, l) && v.step == RECV && v.restarts < l.max_restarts && v.esi_level == 0
    requires f == ((_: nat) => Streaming)
    ensures Good(w, l) && w.step == FETCHBODY && w.restarts == v.restarts && w.stale == v.stale && w.esi_level == 0
    ensures w.wrk.do_stream.On? && !w.wrk.do_esi.On? && w.wrk.vfp == v.wrk.vfp
    ensures Run(v, f, t, l).0 == Run(w, f, t + 3, l).0
  {
    hide Good, Run;
    var a := f(t);
    RunTurn(v, f, t, l);
    var v1 := Turn(v, a, l);
    RunTurn(v1, f, t + 1, l);
    var v2 := Turn(v1, a, l);
    RunTurn(v2, f, t + 2, l);
    w := Turn(v2, a, l);
  }

  /** The assertion can fail: streaming a body through a filter, a restart from vcl_deliver, and the next
      fetch finds the filter still there. */
  lemma StreamedRestartPanics(l: Limits)
    requires l.max_restarts >= 2
    ensures Good(Begin, l) && exists f :: Run(Begin, f, 0, l).0 == Panicked
  {
    hide Good, Run, CntFetchbody, CntPrepresp;
    BeginGood(l);
    var f := (_: nat) => Streaming;
    RunTurn(Begin, f, 0, l);
    var w := ToTheBody(Turn(Begin, f(0), l), f, 1, l);
    StuckIsStale(w, l);
    RunTurn(w, f, 4, l);
    ToPrepresp(w, f(4), l);
    var p := Turn(w, f(4), l);
    RunTurn(p, f, 5, l);
    FilterLeft(p, f(5), l);
    var z := ToTheBody(Turn(p, f(5), l), f, 6, l);
    StuckIsStale(z, l);
    RunTurn(z, f, 9, l);
  }

  lemma ToPrepresp(w: Sess, a: Answer, l: Limits)
    requires Good(w, l) && w.step == FETCHBODY && w.wrk.do_stream.On? && !w.wrk.do_esi.On? && w.esi_level == 0
    requires a.filter && a.keep
    ensures var p := CntFetchbody(w, a);
      p.step == PREPRESP && p.wrk.vfp.On? && p.wrk.do_stream.On? && p.restarts == w.restarts && p.esi_level == 0
  {
    PreparedHas(w, a);
    hide Prepared, Good;
  }

  /** A restart from vcl_deliver leaves the filter of a streamed body in the worker. */
  lemma FilterLeft(p: Sess, a: Answer, l: Limits)
    requires p.step == PREPRESP && p.wrk.do_stream.On? && p.wrk.vfp.On?
    requires a.deliver.DeliverRestart? && p.restarts < l.max_restarts
    ensures var q := Turn(p, a, l);
      q.step == RECV && q.stale.On? && q.wrk.vfp.On? && q.restarts == p.restarts + 1 && q.esi_level == p.esi_level
  {
    var v1 := LetGo(p);
    LetGoLeaves(p);
    ObjectLeaves(v1);
    ObjectLeaves(Unbusy(v1));
    ObjectLeaves(DropObj(Unbusy(v1)));
  }
}
