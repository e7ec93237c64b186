/** The steps of the request state machine as they run, on one session and its worker. */
module RequestSession {
  import opened Wrappers
  import opened R = RequestMachine
  import opened RequestRuns

  class Session {
    var step: Step
    var restarts: nat
    var esi_level: nat
    var vcl: Flag
    var director: Flag
    var obj: Option<Obj>
    var objcore: Option<Core>
    var vbc: Flag
    var hash_objhead: Flag
    var vary: Flag
    var wrk: Work
    /** References taken and dropped; `next` names the next one. */
    var books: Books
    var stale: Flag

    const limits: Limits

    /** The session as a value. */
    ghost function V(): Sess reads this {
      Sess(step, restarts, esi_level, vcl, director, obj, objcore, vbc, hash_objhead, vary, wrk, books, stale)
    }

    constructor (limits: Limits)
      ensures V() == Begin && this.limits == limits
    {
      step, restarts, esi_level, vcl, director := START, 0, 0, Off, Off;
      obj, objcore, vbc, hash_objhead, vary, wrk := None, None, Off, Off, Off, Idle;
      books, stale := Books(0, {}, {}, {}, {}), Off;
      this.limits := limits;
    }

    /** HSH_Deref of the object: its reference goes, or the object itself if it has no core. */
    method HshDerefObj()
      requires obj.Some? && IdOf(obj.value) in books.held
      modifies this`obj, this`books
      ensures V() == DropObj(old(V()))
    {
      books := Dropped(books, IdOf(obj.value));
      obj := None;
    }

    /** HSH_Deref of the object core of a fetch that comes to nothing. */
    method HshDerefCore()
      requires objcore.Some? && objcore.value.id in books.held
      modifies this`objcore, this`books
      ensures V() == DropCore(old(V()))
    {
      books := Dropped(books, objcore.value.id);
      objcore := None;
    }

    method HshUnbusy()
      requires obj.Some? && obj.value.Cached? && obj.value.oc.busy
      modifies this`obj, this`books
      ensures V() == Unbusy(old(V()))
    {
      books := books.(ready := books.ready + {obj.value.oc.id});
      obj := Some(Cached(obj.value.oc.(busy := false)));
    }

    /** HSH_Drop. */
    method HshDrop()
      requires BusyObj(obj) && IdOf(obj.value) in books.held
      modifies this`obj, this`books
      ensures V() == DropObj(Unbusy(old(V())))
    {
      if obj.value.Cached? { HshUnbusy(); }
      HshDerefObj();
    }

    method StvNewObject()
      requires obj == None
      modifies this`obj, this`objcore, this`books
      ensures V() == NewObject(old(V()))
    {
      match objcore
      case Some(oc) => obj, objcore := Some(Cached(oc)), None;
      case None => obj, books := Some(Own(books.next)), Taken(books);
    }

    /** VDI_CloseFd, or VDI_RecycleFd. */
    method VdiCloseFd()
      requires vbc.On?
      modifies this`vbc, this`wrk
      ensures V() == LetGo(old(V()))
    {
      vbc, wrk := Off, wrk.(do_close := Off);
    }

    method CntStart(a: Answer)
      requires Good(V(), limits) && step == START
      modifies this
      ensures V() == R.CntStart(old(V()), a)
    {
      assert restarts == 0 && obj == None && vcl.Off?;
      vcl := On;
      match a.parsed
      case Junk => step := DONE;
      case Refused => step := ERROR;
      case Fine => step := RECV;
    }

    method CntRecv(a: Answer)
      requires Good(V(), limits) && step == RECV
      modifies this
      ensures V() == R.CntRecv(old(V()), a, limits.max_restarts)
    {
      assert vcl.On? && obj == None && director.Off?;
      director := On;
      if restarts >= limits.max_restarts {
        step := ERROR;
        return;
      }
      wrk := wrk.(do_esi := Off, do_stream := Off);
      if esi_level > 0 {
        match a.sub
        case SubLookup => step := LOOKUP;
        case SubPass => step := PASS;
        case SubError => step := ERROR;
      } else {
        match a.recv
        case RecvLookup => step := LOOKUP;
        case RecvPass => step := PASS;
        case RecvPipe => step := PIPE;
        case RecvError => step := ERROR;
      }
    }

    /** HSH_Lookup: a new reference, unless the session is parked. */
    method HshLookup(a: Answer) returns (oc: Option<Core>)
      requires objcore == None
      modifies this`books, this`hash_objhead
      ensures match LookedUp(old(V()), a)
        case None => oc == None && V() == old(V()).(hash_objhead := On)
        case Some(p) =>
          && V() == old(V()).(hash_objhead := Off, books := Taken(old(books)))
          && oc == Some(if p.SubFound? then Core(old(books.next), false, p.pass)
                        else Core(old(books.next), true, false))
    {
      if esi_level == 0 && a.outcome.Busy? {
        hash_objhead := On;
        return None;
      }
      hash_objhead := Off;
      var found := if esi_level > 0 then a.polled
                   else if a.outcome.Found? then SubFound(a.outcome.pass) else SubInserted;
      oc := Some(if found.SubFound? then Core(books.next, false, found.pass) else Core(books.next, true, false));
      books := Taken(books);
    }

    /** Returns whether the session is parked. */
    method CntLookup(a: Answer) returns (done: bool)
      requires Good(V(), limits) && step == LOOKUP
      modifies this
      ensures done <==> Parks(old(V()), a)
      ensures V() == R.CntLookup(old(V()), a)
    {
      assert vcl.On? && (hash_objhead.Off? ==> vary.Off?);
      vary := On;
      var oc := HshLookup(a);
      if oc.None? { return true; }
      done, vary := false, Off;
      if oc.value.busy {
        objcore, step := oc, MISS;
        return;
      }
      obj := Some(Cached(oc.value));
      if oc.value.pass {
        Counted(books);
        HshDerefObj();
        step := PASS;
        return;
      }
      step := HIT;
    }

    lemma Counted(b: Books)
      ensures Taken(b).next - 1 in Taken(b).held
    {
    }

    method CntHit(a: Answer)
      requires Good(V(), limits) && step == HIT
      modifies this
      ensures V() == R.CntHit(old(V()), a)
    {
      assert vcl.On? && !obj.value.oc.pass && wrk.do_stream.Off?;
      if a.hit.HitDeliver? {
        assert wrk.bereq.Off? && wrk.beresp.Off?;
        step := PREPRESP;
        return;
      }
      MineIsHeld(V(), limits);
      HshDerefObj();
      objcore := None;
      match a.hit
      case HitPass => step := PASS;
      case HitError => step := ERROR;
      case HitRestart =>
        director, restarts := Off, restarts + 1;
        step := RECV;
    }

    method CntMiss(a: Answer)
      requires Good(V(), limits) && step == MISS
      modifies this
      ensures V() == R.CntMiss(old(V()), a)
    {
      assert vcl.On? && obj == None && objcore.Some?;
      wrk := wrk.(bereq := On);
      MineIsHeld(old(V()), limits);
      match a.miss
      case MissError =>
        HshDerefCore();
        wrk := wrk.(bereq := Off);
        step := ERROR;
      case MissPass =>
        HshDerefCore();
        step := PASS;
      case MissFetch =>
        step := FETCH;
    }

    method CntPass(a: Answer)
      requires Good(V(), limits) && step == PASS
      modifies this
      ensures V() == R.CntPass(old(V()), a)
    {
      assert vcl.On? && obj == None;
      wrk := wrk.(bereq := On);
      if a.pass.PassError? {
        wrk := wrk.(bereq := Off);
        step := ERROR;
        return;
      }
      step := FETCH;
    }

    /** FetchHdr: None of the connection is left when no response comes. */
    method FetchHdr(a: Answer) returns (ok: bool)
      requires director.On? && obj == None && BusyCore(objcore) && vbc.Off?
      modifies this`vbc
      ensures ok <==> !a.fetch.NoHeader?
      ensures V() == old(V()).(vbc := Set(ok))
    {
      ok := !a.fetch.NoHeader?;
      vbc := Set(ok);
    }

    method CntFetch(a: Answer)
      requires Good(V(), limits) && step == FETCH
      modifies this
      ensures V() == R.CntFetch(old(V()), a)
    {
      hide Ledger, Filtered;
      assert vcl.On? && director.On? && vbc.Off? && wrk.h_content_length.Off? && wrk.do_close.Off?;
      assert wrk.storage_hint.Off?;
      wrk := wrk.(beresp := On);
      var ok := FetchHdr(a);
      if ok {
        wrk := wrk.(h_content_length := Set(a.header.length), do_close := Set(a.header.close));
        assert wrk.do_esi.Off?;
        wrk := wrk.(do_esi := Set(a.header.esi), do_stream := Set(a.header.stream), storage_hint := Set(a.header.hint));
        if a.fetch.FetchHitForPass? {
          if objcore.Some? { objcore := Some(objcore.value.(pass := true)); }
          step := FETCHBODY;
          return;
        }
        if a.fetch.FetchDeliver? {
          assert BusyCore(objcore);
          step := FETCHBODY;
          return;
        }
        VdiCloseFd();
      }
      EndFetch(a, old(V()));
    }

    /** A fetch that comes to nothing ends in a restart or an error. */
    method EndFetch(a: Answer, ghost v: Sess)
      requires Good(v, limits) && v.obj == None && obj == None && objcore == v.objcore && books == v.books && vbc.Off?
      modifies this
      ensures V() == if a.fetch.FetchRestart? then Restart(GiveUp(old(V()))) else Goto(GiveUp(old(V())), ERROR)
    {
      hide Good;
      CleanUp(v);
      if a.fetch.FetchRestart? {
        restarts := restarts + 1;
        step := RECV;
      } else {
        step := ERROR;
      }
    }

    /** The partial fetch is cleaned up. */
    method CleanUp(ghost v: Sess)
      requires Good(v, limits) && v.obj == None && obj == None && objcore == v.objcore && books == v.books && vbc.Off?
      modifies this
      ensures V() == GiveUp(old(V()))
    {
      assert vbc.Off?;
      if objcore.Some? {
        MineIsHeld(v, limits);
        HshDerefCore();
      }
      wrk := wrk.(bereq := Off, beresp := Off, h_content_length := Off, storage_hint := Off);
      director := Off;
    }

    /** FetchBody lets go of the backend whatever comes of it. */
    method FetchBody()
      requires vbc.On? && director.On? && BusyObj(obj)
      modifies this`vbc, this`wrk
      ensures V() == LetGo(old(V()))
    {
      VdiCloseFd();
    }

    /** Fails if the worker has a filter left over. */
    method CntFetchbody(a: Answer) returns (ok: bool)
      requires Good(V(), limits) && step == FETCHBODY
      modifies this
      ensures ok <==> !Stuck(old(V()))
      ensures ok ==> V() == R.CntFetchbody(old(V()), a)
      ensures !ok ==> V() == old(V())
    {
      hide Ledger, Filtered;
      if wrk.vfp.On? { return false; }
      ok := true;
      if wrk.do_esi.On? || a.filter { wrk := wrk.(vfp := On); }
      if wrk.do_esi.On? || esi_level > 0 { wrk := wrk.(do_stream := Off); }
      if !a.keep { wrk := wrk.(do_stream := Off); }
      wrk := wrk.(storage_hint := Off);
      assert wrk == WorkFor(old(wrk), esi_level > 0, a);
      StvNewObject();
      assert V() == Prepared(old(V()), a);
      assert BusyObj(obj);
      if wrk.do_stream.On? {
        step := PREPRESP;
        return;
      }
      StoreBody(a, old(V()));
    }

    /** The rest of cnt_fetchbody: the body is fetched into storage. */
    method StoreBody(a: Answer, ghost v: Sess)
      requires Good(v, limits) && v.step == FETCHBODY && V() == Prepared(v, a) && wrk.do_stream.Off?
      requires vbc.On? && director.On? && BusyObj(obj)
      modifies this
      ensures V() == R.CntFetchbody(v, a)
    {
      FetchBody();
      wrk := wrk.(h_content_length := Off, bereq := Off, beresp := Off, vfp := Off);
      assert vbc.Off? && director.On?;
      assert V() == Fetched(Prepared(v, a));
      if !a.body {
        NewIsHeld(v, a, limits);
        HshDrop();
        step := ERROR;
        return;
      }
      if obj.value.Cached? { HshUnbusy(); }
      step := PREPRESP;
    }

    method CntError(a: Answer)
      requires Good(V(), limits) && step == ERROR
      modifies this
      ensures V() == R.CntError(old(V()), a, limits.max_restarts)
    {
      wrk := wrk.(do_esi := Off, do_stream := Off);
      StvNewObject();
      assert V() == NewObject(Plainly(old(V())));
      if a.error.ErrorRestart? && restarts < limits.max_restarts {
        HshDrop();
        director, restarts := Off, restarts + 1;
        step := RECV;
        return;
      }
      wrk := wrk.(bereq := Off);
      step := PREPRESP;
    }

    /** A restart from vcl_deliver. */
    method RestartResponse()
      requires obj.Some? && IdOf(obj.value) in books.held && (wrk.do_stream.On? ==> vbc.On? && BusyObj(obj))
      modifies this
      ensures V() ==
        if old(wrk).do_stream.On? then
          Restart(Forget(DropObj(Unbusy(LetGo(old(V())))))).(stale := Set(old(stale).On? || old(wrk).vfp.On?))
        else Restart(Forget(DropObj(old(V()))))
    {
      if wrk.do_stream.On? {
        VdiCloseFd();
        HshDrop();
        stale := Set(stale.On? || wrk.vfp.On?);
      } else {
        HshDerefObj();
      }
      assert obj == None;
      restarts, director := restarts + 1, Off;
      wrk := wrk.(h_content_length := Off, bereq := Off, beresp := Off);
      step := RECV;
    }

    method CntPrepresp(a: Answer)
      requires Good(V(), limits) && step == PREPRESP
      modifies this
      ensures V() == R.CntPrepresp(old(V()), a, limits.max_restarts)
    {
      hide Ledger, Filtered;
      assert vcl.On? && obj.Some? && (wrk.do_stream.On? ==> BusyObj(obj));
      if a.deliver.DeliverRestart? && restarts < limits.max_restarts {
        MineIsHeld(V(), limits);
        RestartResponse();
        return;
      }
      if wrk.do_stream.On? {
        assert BusyObj(obj);
        step := STREAMBODY;
      } else {
        step := DELIVER;
      }
    }

    method CntStreambody(a: Answer)
      requires Good(V(), limits) && step == STREAMBODY
      modifies this
      ensures V() == R.CntStreambody(old(V()), a)
    {
      MineIsHeld(V(), limits);
      FetchBody();
      wrk := wrk.(h_content_length := Off, bereq := Off, beresp := Off, vfp := Off);
      assert vbc.Off? && director.On?;
      assert V() == Fetched(old(V()));
      if a.body && obj.value.Cached? { HshUnbusy(); }
      director, restarts := Off, 0;
      HshDerefObj();
      step := DONE;
    }

    method CntPipe(a: Answer)
      requires Good(V(), limits) && step == PIPE
      modifies this
      ensures V() == R.CntPipe(old(V()), a)
    {
      assert vcl.On?;
      wrk := wrk.(bereq := On);
      vbc := Set(a.connect);
      if vbc.On? { VdiCloseFd(); }
      wrk := wrk.(bereq := Off);
      step := DONE;
    }

    /** cnt_done, as far as the request goes. */
    method CntDone()
      requires Good(V(), limits) && step == DONE
      modifies this
      ensures V() == R.CntDone(old(V()))
    {
      assert obj == None && vbc.Off?;
      director, restarts := Off, 0;
      wrk := wrk.(do_esi := Off, do_stream := Off);
      if esi_level == 0 { vcl := Off; }
    }

    /** cnt_deliver; the delivery of an ESI object makes sub-requests. */
    method CntDeliver(f: nat -> Answer, t0: nat) returns (res: Result, t: nat)
      requires Good(V(), limits) && step == DELIVER
      modifies this
      ensures (res, if res.Finished? then Delivered(Sub(old(V()), f, t0).1) else V(), t)
        == (Sub(old(V()), f, t0).0, if res.Finished? then V() else Sub(old(V()), f, t0).1, Sub(old(V()), f, t0).2)
      decreases limits.max_esi_depth - esi_level, Distance(V(), limits), 1, 0
    {
      DeliveredKeeps(V(), limits);
      director, restarts := Off, 0;
      assert V() == Delivering(old(V()));
      res, t := ResWriteObj(f(t0).includes, f, t0 + 1);
      if res.Finished? {
        MineIsHeld(V(), limits);
        HshDerefObj();
        step := DONE;
      }
    }

    /** What the includes of a delivery come to. */
    ghost function Sub(v: Sess, f: nat -> Answer, t: nat): (Result, Sess, nat)
      requires Good(v, limits) && v.step.DELIVER?
    {
      DeliveredKeeps(v, limits);
      Includes(Delivering(v), f(t).includes, f, t + 1, limits)
    }

    lemma DeliveryOf(v: Sess, f: nat -> Answer, t: nat)
      requires Good(v, limits) && v.step.DELIVER?
      ensures var (res, v1, t1) := Sub(v, f, t);
        && (!res.Finished? ==> Run(v, f, t, limits) == (res, v1, t1))
        && (res.Finished? ==>
              && Good(Delivered(v1), limits) && Distance(Delivered(v1), limits) < Distance(v, limits)
              && Delivered(v1).esi_level == v.esi_level
              && Run(v, f, t, limits) == Run(Delivered(v1), f, t1, limits))
    {
      DeliveredKeeps(v, limits);
      var (res, v1, t1) := Sub(v, f, t);
      if res.Finished? { DeliveredKeeps(v1, limits); }
    }

    /** RES_WriteObj, as far as includes are concerned. */
    method ResWriteObj(n: nat, f: nat -> Answer, t0: nat) returns (res: Result, t: nat)
      requires Good(V(), limits) && V().step.DELIVER? && V().restarts == 0
      modifies this
      ensures (res, V(), t) == Includes(old(V()), n, f, t0, limits)
      decreases limits.max_esi_depth - V().esi_level, Distance(V(), limits), 0, 2
    {
      hide Good, Run, Includes, Distance, V;
      IncludesEnd(V(), n, f, t0);
      DistanceOf(V());
      res, t := Finished, t0;
      var k: nat := n;
      ghost var v := V();
      ghost var all := Includes(v, n, f, t0, limits);
      while k > 0
        invariant res == Finished && v == V() && Good(v, limits) && v.step.DELIVER? && v.restarts == 0
        invariant v.esi_level == old(V()).esi_level
        invariant Includes(v, k, f, t, limits) == all
      {
        DistanceOf(v);
        res, t := NextInclude(k, f, t);
        if !res.Finished? { return; }
        k, v := k - 1, V();
      }
      IncludesEnd(v, k, f, t);
    }

    /** One include, unless the nesting is too deep. */
    method NextInclude(ghost k: nat, f: nat -> Answer, t0: nat) returns (res: Result, t: nat)
      requires Good(V(), limits) && V().step.DELIVER? && V().restarts == 0 && k > 0
      modifies this
      ensures res.Finished? ==>
        && Good(V(), limits) && V().step.DELIVER? && V().restarts == 0 && V().esi_level == old(V()).esi_level
        && Includes(V(), k - 1, f, t, limits) == Includes(old(V()), k, f, t0, limits)
      ensures !res.Finished? ==> (res, V(), t) == Includes(old(V()), k, f, t0, limits)
      decreases limits.max_esi_depth - V().esi_level, Distance(V(), limits), 0, 1
    {
      IncludesNext(V(), k, f, t0);
      hide Good, Run, Includes, Resume, SubRequest;
      if esi_level >= limits.max_esi_depth { return Finished, t0; }
      res, t := VedInclude(f, t0);
    }

    lemma DistanceOf(v: Sess)
      requires v.step.DELIVER?
      ensures Distance(v, limits) == 3
    {
    }

    lemma IncludesEnd(v: Sess, n: nat, f: nat -> Answer, t: nat)
      requires Good(v, limits) && v.step.DELIVER? && v.restarts == 0
      ensures n == 0 ==> Includes(v, n, f, t, limits) == (Finished, v, t)
    {
    }

    /** The first of several includes. */
    lemma IncludesNext(v: Sess, n: nat, f: nat -> Answer, t: nat)
      requires Good(v, limits) && v.step.DELIVER? && v.restarts == 0 && n > 0
      ensures v.esi_level >= limits.max_esi_depth ==> Includes(v, n, f, t, limits) == Includes(v, n - 1, f, t, limits)
      ensures v.esi_level < limits.max_esi_depth ==>
        && Good(SubRequest(v), limits)
        && var (res, v1, t1) := Run(SubRequest(v), f, t, limits);
        && (!res.Finished? ==> Includes(v, n, f, t, limits) == (res, v1, t1))
        && (res.Finished? ==>
              && Good(Resume(v1, v), limits) && Resume(v1, v).step.DELIVER? && Resume(v1, v).restarts == 0
              && Resume(v1, v).esi_level == v.esi_level
              && Includes(v, n, f, t, limits) == Includes(Resume(v1, v), n - 1, f, t1, limits))
    {
      if v.esi_level < limits.max_esi_depth {
        SubRequestGood(v, limits);
        var (res, v1, t1) := Run(SubRequest(v), f, t, limits);
        if res.Finished? { ResumeGood(v1, v, limits); }
        hide Good;
      }
    }

    lemma SubRequestRuns(v: Sess, f: nat -> Answer, t: nat)
      requires Good(v, limits) && v.step.DELIVER? && v.restarts == 0 && v.esi_level < limits.max_esi_depth
      ensures v.obj.Some? && Good(SubRequest(v), limits)
      ensures var (res, v1, _) := Run(SubRequest(v), f, t, limits);
        res.Finished? ==> v1.step.DONE? && v1.esi_level == v.esi_level + 1 && Good(Resume(v1, v), limits)
    {
      SubRequestGood(v, limits);
      var (res, v1, _) := Run(SubRequest(v), f, t, limits);
      if res.Finished? { ResumeGood(v1, v, limits); }
    }

    /** ved_include: the session is set up for a sub-request, runs, and goes back to the delivery. */
    method VedInclude(f: nat -> Answer, t0: nat) returns (res: Result, t: nat)
      requires Good(V(), limits) && step == DELIVER && restarts == 0 && esi_level < limits.max_esi_depth
      modifies this
      ensures Good(SubRequest(old(V())), limits)
      ensures var r := Run(SubRequest(old(V())), f, t0, limits);
        && res == r.0 && t == r.2
        && (res.Finished? ==> V() == Resume(r.1, old(V())) && Good(V(), limits))
        && (!res.Finished? ==> V() == r.1)
      decreases limits.max_esi_depth - esi_level, Distance(V(), limits), 0, 0
    {
      hide Good, Run, Distance;
      SubRequestRuns(V(), f, t0);
      var saved, outer := obj, books.waiting;
      esi_level := esi_level + 1;
      books := books.(waiting := outer + {IdOf(saved.value)});
      obj := None;
      director, step := Off, RECV;
      wrk := wrk.(do_esi := Off, do_stream := Off);
      assert V() == SubRequest(old(V()));
      res, t := CntSession(f, t0);
      if res.Finished? {
        assert step == DONE;
        esi_level := esi_level - 1;
        obj, step := saved, DELIVER;
        books := books.(waiting := outer);
      }
    }

    /** CNT_Session: kicks the session around until it is done or parked. */
    method CntSession(f: nat -> Answer, t0: nat) returns (res: Result, t: nat)
      requires Good(V(), limits)
      modifies this
      ensures (res, V(), t) == Run(old(V()), f, t0, limits)
      decreases limits.max_esi_depth - esi_level, Distance(V(), limits), 2, 0
    {
      t := t0;
      while step != DONE
        invariant Good(V(), limits) && esi_level == old(esi_level)
        invariant Distance(V(), limits) <= old(Distance(V(), limits))
        invariant Run(V(), f, t, limits) == Run(old(V()), f, t0, limits)
        decreases Distance(V(), limits)
      {
        var done;
        done, res, t := OneStep(f, t);
        if done { return; }
      }
      CntDone();
      res := Finished;
    }

    /** One turn of the dispatcher. */
    method OneStep(f: nat -> Answer, t0: nat) returns (done: bool, res: Result, t: nat)
      requires Good(V(), limits) && step != DONE
      modifies this
      ensures done ==> (res, V(), t) == Run(old(V()), f, t0, limits)
      ensures !done ==>
        && Good(V(), limits) && Distance(V(), limits) < old(Distance(V(), limits)) && esi_level == old(esi_level)
        && Run(V(), f, t, limits) == Run(old(V()), f, t0, limits)
      decreases limits.max_esi_depth - esi_level, Distance(V(), limits), 1, 1
    {
      if step == DELIVER {
        DeliveryOf(V(), f, t0);
        hide Good, Distance, Sub, Delivered;
        res, t := CntDeliver(f, t0);
        done := !res.Finished?;
        return;
      }
      RunTurn(V(), f, t0, limits);
      hide Good, Turn, Stuck, Parks, Distance;
      done, res := Dispatch(f(t0));
      t := if done && res.Panicked? then t0 else t0 + 1;
    }

    /** The switch over the other steps. */
    method Dispatch(a: Answer) returns (done: bool, res: Result)
      requires Good(V(), limits) && step != DONE && step != DELIVER
      modifies this
      ensures done <==> Stuck(old(V())) || Parks(old(V()), a)
      ensures done ==> res == (if Stuck(old(V())) then Panicked else Parked)
      ensures V() == if Stuck(old(V())) then old(V()) else Turn(old(V()), a, limits)
    {
      done, res := false, Finished;
      match step
      case START => CntStart(a);
      case RECV => CntRecv(a);
      case LOOKUP =>
        done := CntLookup(a);
        res := Parked;
      case HIT => CntHit(a);
      case MISS => CntMiss(a);
      case PASS => CntPass(a);
      case FETCH => CntFetch(a);
      case FETCHBODY =>
        var ok := CntFetchbody(a);
        done, res := !ok, Panicked;
      case ERROR => CntError(a);
      case PREPRESP => CntPrepresp(a);
      case STREAMBODY => CntStreambody(a);
      case PIPE => CntPipe(a);
    }
  }
}
