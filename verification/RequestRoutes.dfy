/** Where the verdicts of a request lead, over the turns of whole runs, ESI sub-requests included. */
module RequestRoutes {
  import opened Wrappers
  import opened RequestMachine
  import opened RequestRuns
  import opened RequestPanics

  /** A turn after which the session goes on by itself. */
  predicate GoesOn(x: Visit) {
    !x.v.step.DONE? && !x.v.step.DELIVER? && !Stuck(x.v) && !Parks(x.v, x.a)
  }

  /** How two turns of a trace follow each other: one step apart, or into or out of a sub-request. */
  ghost predicate Follows(x: Visit, y: Visit, l: Limits) {
    && x.v.books.dropped <= y.v.books.dropped
    && if x.v.step.DELIVER? then y.v.step.RECV? || y.v.step.DONE?
    else if x.v.step.DONE? then y.v.step.RECV? || y.v.step.DONE?
    else GoesOn(x) && y.v == Turn(x.v, x.a, l)
  }

  ghost predicate Linked(tr: seq<Visit>, l: Limits) {
    && (forall i :: 0 <= i < |tr| ==> Good(tr[i].v, l))
    && (forall i :: 0 < i < |tr| ==> Follows(tr[i - 1], tr[i], l))
  }

  /** A trace, where it begins, and how it ends. */
  ghost predicate Whole(tr: seq<Visit>, v: Sess, r: (Result, Sess, nat), l: Limits) {
    && Linked(tr, l) && tr != [] && tr[0].v == v && !GoesOn(tr[|tr| - 1]) && !tr[|tr| - 1].v.step.DELIVER?
    && (r.0.Parked? ==> Parks(tr[|tr| - 1].v, tr[|tr| - 1].a)) && (r.0.Panicked? ==> Stuck(tr[|tr| - 1].v))
    && (r.0.Finished? ==> tr[|tr| - 1].v.step.DONE? && r.1.books.dropped == tr[|tr| - 1].v.books.dropped)
  }

  lemma LinkedJoin(a: seq<Visit>, b: seq<Visit>, l: Limits)
    requires Linked(a, l) && Linked(b, l) && (a != [] && b != [] ==> Follows(a[|a| - 1], b[0], l))
    ensures Linked(a + b, l)
  {
    var c := a + b;
    hide Good, Follows;
    forall i | 0 <= i < |c| ensures Good(c[i].v, l) { if i >= |a| { assert c[i] == b[i - |a|]; } }
    forall i | 0 < i < |c| ensures Follows(c[i - 1], c[i], l) {
      if i > |a| { assert c[i] == b[i - |a|] && c[i - 1] == b[i - 1 - |a|]; }
    }
  }

  lemma LinkedOne(x: Visit, l: Limits)
    requires Good(x.v, l)
    ensures Linked([x], l)
  {
    hide Good;
  }

  lemma {:induction false} TraceIsWhole(v: Sess, f: nat -> Answer, t: nat, l: Limits)
    requires Good(v, l)
    ensures Whole(Trace(v, f, t, l), v, Run(v, f, t, l), l)
    decreases l.max_esi_depth - v.esi_level, Distance(v, l), 1, 0
  {
    hide Good, Linked, Turn, DropObj;
    var x := Visit(v, f(t));
    LinkedOne(x, l);
    if v.step.DONE? || Stuck(v) || Parks(v, f(t)) {
    } else if v.step.DELIVER? {
      DeliveredKeeps(v, l);
      var d, n := Delivering(v), f(t).includes;
      var mid, inside := Includes(d, n, f, t + 1, l), IncludesTrace(d, n, f, t + 1, l);
      IncludesAreWhole(d, n, f, t + 1, l);
      LinkedJoin([x], inside, l);
      if mid.0.Finished? {
        DeliveredKeeps(mid.1, l);
        DropOnly(mid.1);
        TraceIsWhole(Delivered(mid.1), f, mid.2, l);
        var rest := Trace(Delivered(mid.1), f, mid.2, l);
        LinkedJoin([x] + inside, rest, l);
        assert ([x] + inside + rest)[|[x] + inside + rest| - 1] == rest[|rest| - 1];
      } else {
        assert ([x] + inside)[|[x] + inside| - 1] == inside[|inside| - 1];
      }
    } else {
      TurnKeeps(v, f(t), l);
      var w := Turn(v, f(t), l);
      TurnDrops(v, f(t), l);
      TraceIsWhole(w, f, t + 1, l);
      var rest := Trace(w, f, t + 1, l);
      LinkedJoin([x], rest, l);
      assert ([x] + rest)[|[x] + rest| - 1] == rest[|rest| - 1];
    }
  }

  /** The turns of a series of sub-requests: each starts at RECV, and all but a failing one end at DONE. */
  lemma {:induction false} IncludesAreWhole(v: Sess, n: nat, f: nat -> Answer, t: nat, l: Limits)
    requires Good(v, l) && v.step.DELIVER? && v.restarts == 0
    ensures var tr, r := IncludesTrace(v, n, f, t, l), Includes(v, n, f, t, l);
      && Linked(tr, l) && (tr != [] ==> tr[0].v.step.RECV? && !GoesOn(tr[|tr| - 1]) && !tr[|tr| - 1].v.step.DELIVER?)
      && (if r.0.Finished? then tr != [] ==> tr[|tr| - 1].v.step.DONE? else tr != [] && Stuck(tr[|tr| - 1].v))
      && (tr != [] ==> v.books.dropped <= tr[0].v.books.dropped)
      && (r.0.Finished? ==>
            r.1.books.dropped == if tr == [] then v.books.dropped else tr[|tr| - 1].v.books.dropped)
    decreases l.max_esi_depth - v.esi_level, Distance(v, l), 0, n
  {
    hide Good, Linked, Turn;
    if n == 0 || v.esi_level >= l.max_esi_depth {
      assert Linked([], l) by { NoneLinked(l); }
    } else {
      SubRequestGood(v, l);
      var sub := SubRequest(v);
      var mid := Run(sub, f, t, l);
      TraceIsWhole(sub, f, t, l);
      if mid.0.Finished? {
        ResumeGood(mid.1, v, l);
        var w := Resume(mid.1, v);
        IncludesAreWhole(w, n - 1, f, mid.2, l);
        LinkedJoin(Trace(sub, f, t, l), IncludesTrace(w, n - 1, f, mid.2, l), l);
      }
    }
  }

  /** References that were dropped stay dropped. */
  lemma TurnDrops(v: Sess, a: Answer, l: Limits)
    ensures v.books.dropped <= Turn(v, a, l).books.dropped
  {
    match v.step
    case LOOKUP => LookupDrops(v, a);
    case HIT => DropOnly(v);
    case MISS => DropOnly(v.(wrk := v.wrk.(bereq := On))); DropOnly(v.(wrk := v.wrk.(bereq := Off)));
    case FETCH => FetchDrops(v, a);
    case FETCHBODY => BodyDrops(v, a);
    case ERROR =>
      DropOnly(Plainly(v));
      DropOnly(Unbusy(NewObject(Plainly(v))));
      DropOnly(NewObject(Plainly(v)));
      DropOnly(v);
      hide Plainly, NewObject, Unbusy, DropObj;
    case PREPRESP => PrepDrops(v);
      hide LetGo, Unbusy, DropObj, Forget;
    case STREAMBODY =>
      DropOnly(v);
      DropOnly(Fetched(v));
      DropOnly(Unbusy(Fetched(v)));
      hide Fetched, Unbusy, DropObj;
    case _ =>
  }

  lemma FetchDrops(v: Sess, a: Answer)
    ensures v.books.dropped <= CntFetch(v, a).books.dropped
  {
    var v1 := GotHeader(v, a.header);
    assert v1.books == v.books;
    DropOnly(v);
    DropOnly(v1);
    DropOnly(LetGo(v1));
    hide GiveUp, LetGo, GotHeader;
  }

  lemma BodyDrops(v: Sess, a: Answer)
    ensures v.books.dropped <= CntFetchbody(v, a).books.dropped
  {
    var p := Prepared(v, a);
    DropOnly(v.(wrk := WorkFor(v.wrk, v.esi_level > 0, a)));
    DropOnly(p);
    DropOnly(Fetched(p));
    DropOnly(Unbusy(Fetched(p)));
    hide WorkFor, NewObject, Fetched, Unbusy, DropObj;
  }

  lemma PrepDrops(v: Sess)
    ensures v.books.dropped <= Forget(DropObj(Unbusy(LetGo(v)))).books.dropped
    ensures v.books.dropped <= Forget(DropObj(v)).books.dropped
  {
    DropOnly(v);
    DropOnly(LetGo(v));
    DropOnly(Unbusy(LetGo(v)));
    DropOnly(DropObj(Unbusy(LetGo(v))));
    DropOnly(DropObj(v));
    hide LetGo, Unbusy, DropObj, Forget;
  }

  lemma DropOnly(v: Sess)
    ensures v.books.dropped <= DropObj(v).books.dropped && v.books.dropped <= DropCore(v).books.dropped
    ensures NewObject(v).books.dropped == v.books.dropped && v.books.dropped <= GiveUp(v).books.dropped
    ensures LetGo(v).books == Fetched(v).books == Forget(v).books == Plainly(v).books == v.books
    ensures Unbusy(v).books.dropped == v.books.dropped
  {
  }

  lemma LookupDrops(v: Sess, a: Answer)
    ensures v.books.dropped <= CntLookup(v, a).books.dropped
  {
  }

  lemma NoneLinked(l: Limits)
    ensures Linked([], l)
  {
  }

  // ---- when a turn at a step follows ----

  /** What vcl_recv says of a request, or of a sub-request. */
  datatype Way = ToLookup | ToPass | ToPipe | ToError

  function Received(x: Visit, l: Limits): Way {
    if x.v.restarts >= l.max_restarts then ToError
    else if x.v.esi_level > 0 then match x.a.sub
      case SubLookup => ToLookup case SubPass => ToPass case SubError => ToError
    else match x.a.recv
      case RecvLookup => ToLookup case RecvPass => ToPass case RecvPipe => ToPipe case RecvError => ToError
  }

  /** The lookup finds an object that can be used, marked for passing or not. A sub-request polls for one. */
  predicate Finds(x: Visit, pass: bool) {
    if x.v.esi_level > 0 then x.a.polled == SubFound(pass) else x.a.outcome == Found(pass)
  }

  predicate Inserts(x: Visit) {
    if x.v.esi_level > 0 then x.a.polled == SubInserted else x.a.outcome == Inserted
  }

  predicate Restarts(x: Visit, l: Limits) {
    match x.v.step
    case HIT => x.a.hit.HitRestart?
    case FETCH => x.a.fetch.FetchRestart?
    case ERROR => x.a.error.ErrorRestart? && x.v.restarts < l.max_restarts
    case PREPRESP => x.a.deliver.DeliverRestart? && x.v.restarts < l.max_restarts
    case _ => false
  }

  /** A body is streamed if vcl_fetch asked for it and neither ESI nor a sub-request nor anything else speaks
      against it. */
  predicate Streams(x: Visit) { x.v.wrk.do_stream.On? && !x.v.wrk.do_esi.On? && x.v.esi_level == 0 && x.a.keep }

  /** The backend is asked after a miss or a pass, if VCL has not changed its mind, and never else. */
  lemma FetchFollows(x: Visit, y: Visit, l: Limits)
    requires GoesOn(x) && y.v == Turn(x.v, x.a, l)
    ensures y.v.step.FETCH? <==>
      (x.v.step.MISS? && x.a.miss.MissFetch?) || (x.v.step.PASS? && x.a.pass.PassPass?)
    ensures y.v.step.FETCHBODY? <==> x.v.step.FETCH? && (x.a.fetch.FetchDeliver? || x.a.fetch.FetchHitForPass?)
  {
    hide GiveUp, LetGo, GotHeader, Unbusy, Fetched, Prepared, NewObject, Forget, DropObj, DropCore;
  }

  lemma LookupFollows(x: Visit, y: Visit, l: Limits)
    requires GoesOn(x) && y.v == Turn(x.v, x.a, l)
    ensures y.v.step.LOOKUP? <==> x.v.step.RECV? && Received(x, l).ToLookup?
    ensures y.v.step.PIPE? <==> x.v.step.RECV? && Received(x, l).ToPipe?
    ensures y.v.step.HIT? <==> x.v.step.LOOKUP? && Finds(x, false)
    ensures y.v.step.MISS? <==> x.v.step.LOOKUP? && Inserts(x)
    ensures y.v.step.PASS? <==>
      || (x.v.step.RECV? && Received(x, l).ToPass?) || (x.v.step.LOOKUP? && Finds(x, true))
      || (x.v.step.HIT? && x.a.hit.HitPass?) || (x.v.step.MISS? && x.a.miss.MissPass?)
  {
    hide GiveUp, LetGo, GotHeader, Unbusy, Fetched, Prepared, NewObject, Forget;
  }

  lemma ErrorFollows(x: Visit, y: Visit, l: Limits)
    requires GoesOn(x) && y.v == Turn(x.v, x.a, l) && Good(x.v, l)
    ensures y.v.step.ERROR? <==>
      || (x.v.step.START? && x.a.parsed.Refused?) || (x.v.step.RECV? && Received(x, l).ToError?)
      || (x.v.step.HIT? && x.a.hit.HitError?) || (x.v.step.MISS? && x.a.miss.MissError?)
      || (x.v.step.PASS? && x.a.pass.PassError?)
      || (x.v.step.FETCH? && (x.a.fetch.NoHeader? || x.a.fetch.FetchError?))
      || (x.v.step.FETCHBODY? && !Streams(x) && !x.a.body)
    ensures y.v.step.RECV? <==> (x.v.step.START? && x.a.parsed.Fine?) || Restarts(x, l)
  {
    if x.v.step.FETCHBODY? { PreparedHas(x.v, x.a); }
    hide Ledger, GiveUp, LetGo, GotHeader, Unbusy, Fetched, Forget, DropObj, DropCore, Prepared, NewObject, Plainly;
  }

  /** What is sent: an object found, fetched or made up, if vcl_deliver does not restart. */
  lemma DeliverFollows(x: Visit, y: Visit, l: Limits)
    requires GoesOn(x) && y.v == Turn(x.v, x.a, l) && Good(x.v, l)
    ensures y.v.step.PREPRESP? <==>
      || (x.v.step.HIT? && x.a.hit.HitDeliver?) || (x.v.step.FETCHBODY? && (Streams(x) || x.a.body))
      || (x.v.step.ERROR? && !Restarts(x, l))
    ensures y.v.step.DELIVER? <==> x.v.step.PREPRESP? && !Restarts(x, l) && !x.v.wrk.do_stream.On?
    ensures y.v.step.STREAMBODY? <==> x.v.step.PREPRESP? && !Restarts(x, l) && x.v.wrk.do_stream.On?
    ensures y.v.step.DONE? <==> (x.v.step.START? && x.a.parsed.Junk?) || x.v.step.STREAMBODY? || x.v.step.PIPE?
  {
    if x.v.step.FETCHBODY? { PreparedHas(x.v, x.a); }
    hide Ledger, GiveUp, LetGo, GotHeader, Unbusy, Fetched, Forget, DropObj, DropCore, Prepared, NewObject, Plainly;
  }

  /** A restart is counted, and nothing else is. */
  lemma RestartsCount(x: Visit, y: Visit, l: Limits)
    requires GoesOn(x) && y.v == Turn(x.v, x.a, l) && !x.v.step.STREAMBODY?
    ensures y.v.restarts == x.v.restarts + if Restarts(x, l) then 1 else 0
  {
    match x.v.step
    case HIT => KeepCount(x.v);
    case MISS => KeepCount(x.v.(wrk := x.v.wrk.(bereq := On))); KeepCount(x.v.(wrk := x.v.wrk.(bereq := Off)));
    case FETCH => FetchCounts(x.v, x.a);
    case FETCHBODY =>
      KeepCount(x.v.(wrk := WorkFor(x.v.wrk, x.v.esi_level > 0, x.a)));
      KeepCount(Prepared(x.v, x.a));
      KeepCount(Fetched(Prepared(x.v, x.a)));
      KeepCount(Unbusy(Fetched(Prepared(x.v, x.a))));
      hide WorkFor, NewObject, Fetched, Unbusy, DropObj;
    case ERROR =>
      KeepCount(x.v);
      KeepCount(Plainly(x.v));
      KeepCount(NewObject(Plainly(x.v)));
      KeepCount(Unbusy(NewObject(Plainly(x.v))));
      hide Plainly, NewObject, Unbusy, DropObj;
    case PREPRESP => PrepCounts(x.v);
      hide LetGo, Unbusy, DropObj, Forget;
    case _ =>
  }

  lemma FetchCounts(v: Sess, a: Answer)
    ensures CntFetch(v, a).restarts == v.restarts + if a.fetch.FetchRestart? then 1 else 0
  {
    KeepCount(v);
    KeepCount(GotHeader(v, a.header));
    KeepCount(LetGo(GotHeader(v, a.header)));
    assert GotHeader(v, a.header).restarts == v.restarts;
    hide GiveUp, LetGo, GotHeader;
  }

  lemma PrepCounts(v: Sess)
    ensures Forget(DropObj(Unbusy(LetGo(v)))).restarts == Forget(DropObj(v)).restarts == v.restarts
  {
    KeepCount(v);
    KeepCount(LetGo(v));
    KeepCount(Unbusy(LetGo(v)));
    KeepCount(DropObj(Unbusy(LetGo(v))));
    KeepCount(DropObj(v));
    hide LetGo, Unbusy, DropObj, Forget;
  }

  /** What is done to objects and connections does not touch the count of restarts. */
  lemma KeepCount(v: Sess)
    ensures GiveUp(v).restarts == LetGo(v).restarts == Unbusy(v).restarts == Fetched(v).restarts == v.restarts
    ensures Forget(v).restarts == DropObj(v).restarts == DropCore(v).restarts == NewObject(v).restarts == v.restarts
    ensures Plainly(v).restarts == v.restarts
  {
  }

  // ---- which object goes where ----

  predicate Has(v: Sess, id: nat) {
    (v.obj.Some? && IdOf(v.obj.value) == id) || (v.objcore.Some? && v.objcore.value.id == id)
  }

  /** A lookup takes one new reference: to the object it found, or to the core it inserted. */
  lemma LookupTakes(x: Visit, y: Visit, l: Limits)
    requires GoesOn(x) && y.v == Turn(x.v, x.a, l) && Good(x.v, l) && x.v.step.LOOKUP?
    ensures y.v.step.HIT? ==> y.v.obj == Some(Cached(Core(x.v.books.next, false, false))) && y.v.objcore == None
    ensures y.v.step.MISS? ==> y.v.objcore == Some(Core(x.v.books.next, true, false)) && y.v.obj == None
    ensures y.v.step.PASS? ==> y.v.obj == None && y.v.objcore == None && x.v.books.next in y.v.books.dropped
  {
    hide Ledger;
  }

  /** An object found goes on to its delivery, or its reference is dropped. */
  lemma HitGoes(x: Visit, y: Visit, l: Limits)
    requires GoesOn(x) && y.v == Turn(x.v, x.a, l) && Good(x.v, l) && x.v.step.HIT?
    ensures x.v.obj.Some?
    ensures x.a.hit.HitDeliver? ==> y.v.obj == x.v.obj && y.v.books == x.v.books && !y.v.wrk.do_stream.On?
    ensures !x.a.hit.HitDeliver? ==> y.v.obj == None && y.v.objcore == None && IdOf(x.v.obj.value) in y.v.books.dropped
  {
    hide Ledger;
  }

  /** A core inserted for a miss goes on to its fetch, or is dropped. */
  lemma MissGoes(x: Visit, y: Visit, l: Limits)
    requires GoesOn(x) && y.v == Turn(x.v, x.a, l) && Good(x.v, l) && x.v.step.MISS?
    ensures x.v.objcore.Some?
    ensures x.a.miss.MissFetch? ==> y.v.objcore == x.v.objcore && y.v.obj == None
    ensures !x.a.miss.MissFetch? ==>
      y.v.obj == None && y.v.objcore == None && x.v.objcore.value.id in y.v.books.dropped
  {
    hide Ledger;
  }

  /** vcl_fetch decides whether the core that is to be stored is marked for passing. */
  lemma FetchMarks(x: Visit, y: Visit, l: Limits)
    requires GoesOn(x) && y.v == Turn(x.v, x.a, l) && x.v.step.FETCH? && y.v.step.FETCHBODY?
    ensures y.v.objcore == match x.v.objcore
      case None => None
      case Some(oc) => Some(Core(oc.id, oc.busy, oc.pass || x.a.fetch.FetchHitForPass?))
  {
    hide GiveUp, LetGo;
  }

  /** The body is fetched into an object on that core, or into one of the session's own. */
  lemma BodyStores(x: Visit, y: Visit, l: Limits)
    requires GoesOn(x) && y.v == Turn(x.v, x.a, l) && Good(x.v, l) && x.v.step.FETCHBODY? && y.v.step.PREPRESP?
    ensures y.v.objcore == None && y.v.obj == match x.v.objcore
      case None => Some(Own(x.v.books.next))
      case Some(oc) => Some(Cached(Core(oc.id, Streams(x), oc.pass)))
    ensures y.v.wrk.do_stream.On? <==> Streams(x)
  {
    var p := Prepared(x.v, x.a);
    PreparedHas(x.v, x.a);
    FetchedHas(p);
    MadeOf(x.v);
    assert p.wrk.do_stream.On? <==> Streams(x);
    hide Ledger, Prepared, Fetched, NewObject, WorkFor, DropObj;
    FetchedStreams(p);
    UnbusyIs(Fetched(p));
  }

  lemma MadeOf(v: Sess)
    ensures NewObject(v).obj == match v.objcore
      case None => Some(Own(v.books.next))
      case Some(oc) => Some(Cached(oc))
  {
  }

  lemma FetchedStreams(p: Sess)
    ensures Fetched(p).wrk.do_stream == p.wrk.do_stream
  {
  }

  lemma UnbusyIs(v: Sess)
    ensures Unbusy(v) == v.(obj := Unbusy(v).obj, books := Unbusy(v).books)
    ensures v.obj.Some? && v.obj.value.Cached? ==>
      && Unbusy(v).obj == Some(Cached(Core(v.obj.value.oc.id, false, v.obj.value.oc.pass)))
      && v.obj.value.oc.id in Unbusy(v).books.ready
    ensures !(v.obj.Some? && v.obj.value.Cached?) ==> Unbusy(v).obj == v.obj
  {
  }

  /** What was made ready is what is sent. */
  lemma PrepSends(x: Visit, y: Visit, l: Limits)
    requires GoesOn(x) && y.v == Turn(x.v, x.a, l) && x.v.step.PREPRESP? && !y.v.step.RECV?
    ensures y.v.obj == x.v.obj && y.v.books == x.v.books
  {
  }

  /** The page made up for an error is an object of the session's own. */
  lemma ErrorMakes(x: Visit, y: Visit, l: Limits)
    requires GoesOn(x) && y.v == Turn(x.v, x.a, l) && Good(x.v, l) && x.v.step.ERROR? && y.v.step.PREPRESP?
    ensures y.v.obj == Some(Own(x.v.books.next)) && !y.v.wrk.do_stream.On?
  {
    MadeOf(Plainly(x.v));
    hide Ledger;
  }

  // ---- over whole runs ----

  /** The next turn of a run, after one that goes on by itself. */
  lemma NextTurn(tr: seq<Visit>, v: Sess, r: (Result, Sess, nat), l: Limits, i: nat)
    requires Whole(tr, v, r, l) && i < |tr| && GoesOn(tr[i])
    ensures i + 1 < |tr| && tr[i + 1].v == Turn(tr[i].v, tr[i].a, l)
    ensures Good(tr[i].v, l) && Good(tr[i + 1].v, l)
  {
    hide Good;
    assert Follows(tr[i], tr[i + 1], l);
  }

  /** The turn before one that is neither the first of a request nor the last. */
  lemma LastTurnBefore(tr: seq<Visit>, v: Sess, r: (Result, Sess, nat), l: Limits, i: nat)
    requires Whole(tr, v, r, l) && 0 < i < |tr| && !tr[i].v.step.RECV? && !tr[i].v.step.DONE?
    ensures GoesOn(tr[i - 1]) && tr[i].v == Turn(tr[i - 1].v, tr[i - 1].a, l) && Good(tr[i - 1].v, l)
  {
    hide Good;
    assert Follows(tr[i - 1], tr[i], l);
  }

  lemma {:induction false} StaysDropped(tr: seq<Visit>, l: Limits, i: nat, j: nat)
    requires Linked(tr, l) && i <= j < |tr|
    ensures tr[i].v.books.dropped <= tr[j].v.books.dropped
    decreases j
  {
    hide Good;
    if i < j {
      StaysDropped(tr, l, i, j - 1);
      assert Follows(tr[j - 1], tr[j], l);
    }
  }

  /** A reference that was dropped is not used again, in the request or a sub-request. */
  lemma DroppedStaysAway(tr: seq<Visit>, l: Limits, i: nat, j: nat, id: nat)
    requires Linked(tr, l) && i <= j < |tr| && id in tr[i].v.books.dropped
    ensures !Has(tr[j].v, id)
  {
    StaysDropped(tr, l, i, j);
    MineIsHeld(tr[j].v, l);
    assert tr[j].v.books.held !! tr[j].v.books.dropped by { LedgerOf(tr[j].v, l); }
  }

  lemma LedgerOf(v: Sess, l: Limits)
    requires Good(v, l)
    ensures v.books.held !! v.books.dropped
  {
  }

  /** A hit that vcl_hit lets pass on to delivery: the very object found by the lookup before is made ready and,
      unless vcl_deliver restarts, delivered in the next turn but one, without a turn at the backend. */
  lemma HitIsDelivered(v: Sess, f: nat -> Answer, t: nat, l: Limits, i: nat)
    requires Good(v, l) && (v.step.START? || v.step.RECV?)
    requires var tr := Trace(v, f, t, l); i < |tr| && tr[i].v.step.HIT? && tr[i].a.hit.HitDeliver?
    ensures var tr := Trace(v, f, t, l);
      && 0 < i && tr[i - 1].v.step.LOOKUP? && tr[i].v.obj == Some(Cached(Core(tr[i - 1].v.books.next, false, false)))
      && i + 1 < |tr| && tr[i + 1].v.step.PREPRESP? && tr[i + 1].v.obj == tr[i].v.obj
      && (!Restarts(tr[i + 1], l) ==> i + 2 < |tr| && tr[i + 2].v.step.DELIVER? && tr[i + 2].v.obj == tr[i].v.obj)
  {
    TraceIsWhole(v, f, t, l);
    var tr, r := Trace(v, f, t, l), Run(v, f, t, l);
    hide Trace, Run, Whole, Good, Turn;
    assert tr[0].v == v by { FirstIs(tr, v, r, l); }
    LastTurnBefore(tr, v, r, l, i);
    LookupFollows(tr[i - 1], tr[i], l);
    LookupTakes(tr[i - 1], tr[i], l);
    NextTurn(tr, v, r, l, i);
    DeliverFollows(tr[i], tr[i + 1], l);
    HitGoes(tr[i], tr[i + 1], l);
    NextTurn(tr, v, r, l, i + 1);
    DeliverFollows(tr[i + 1], tr[i + 2], l);
    if !Restarts(tr[i + 1], l) { PrepSends(tr[i + 1], tr[i + 2], l); }
  }

  lemma FirstIs(tr: seq<Visit>, v: Sess, r: (Result, Sess, nat), l: Limits)
    requires Whole(tr, v, r, l)
    ensures tr != [] && tr[0].v == v && Linked(tr, l)
  {
  }

  /** Any other verdict on a hit drops the reference for good: the object found is not sent, in this turn of the
      request or after a restart, nor by a sub-request. A pass goes on to the backend. */
  lemma PassedHitIsNotSent(v: Sess, f: nat -> Answer, t: nat, l: Limits, i: nat, j: nat)
    requires Good(v, l)
    requires var tr := Trace(v, f, t, l); i < j < |tr| && tr[i].v.step.HIT? && !tr[i].a.hit.HitDeliver?
    ensures var tr := Trace(v, f, t, l);
      && tr[i].v.obj.Some? && !Has(tr[j].v, IdOf(tr[i].v.obj.value))
      && (tr[i].a.hit.HitPass? ==> tr[i + 1].v.step.PASS?)
      && (tr[i].a.hit.HitError? ==> tr[i + 1].v.step.ERROR?)
      && (tr[i].a.hit.HitRestart? ==> tr[i + 1].v.step.RECV?)
  {
    TraceIsWhole(v, f, t, l);
    var tr, r := Trace(v, f, t, l), Run(v, f, t, l);
    hide Trace, Run, Whole, Good, Turn;
    FirstIs(tr, v, r, l);
    NextTurn(tr, v, r, l, i);
    HitGoes(tr[i], tr[i + 1], l);
    LookupFollows(tr[i], tr[i + 1], l);
    ErrorFollows(tr[i], tr[i + 1], l);
    DroppedStaysAway(tr, l, i + 1, j, IdOf(tr[i].v.obj.value));
  }

  /** An object marked for passing is not sent either: the lookup that finds it passes. */
  lemma MarkedObjectIsPassed(v: Sess, f: nat -> Answer, t: nat, l: Limits, i: nat, j: nat)
    requires Good(v, l)
    requires var tr := Trace(v, f, t, l);
      i < j < |tr| && tr[i].v.step.LOOKUP? && Finds(tr[i], true)
    ensures var tr := Trace(v, f, t, l); tr[i + 1].v.step.PASS? && !Has(tr[j].v, tr[i].v.books.next)
  {
    TraceIsWhole(v, f, t, l);
    var tr, r := Trace(v, f, t, l), Run(v, f, t, l);
    hide Trace, Run, Whole, Good, Turn;
    FirstIs(tr, v, r, l);
    NextTurn(tr, v, r, l, i);
    LookupFollows(tr[i], tr[i + 1], l);
    LookupTakes(tr[i], tr[i + 1], l);
    DroppedStaysAway(tr, l, i + 1, j, tr[i].v.books.next);
  }

  /** Where an object to be sent comes from: two turns before it was found and vcl_hit said deliver, or its body
      was fetched, or it was made up for an error. */
  ghost predicate Source(x: Visit, y: Visit, l: Limits) {
    || (x.v.step.HIT? && x.a.hit.HitDeliver? && y.v.obj == x.v.obj && !y.v.wrk.do_stream.On?)
    || (x.v.step.FETCHBODY? && (y.v.wrk.do_stream.On? <==> Streams(x)) && (Streams(x) || x.a.body)
        && y.v.obj == match x.v.objcore
             case None => Some(Own(x.v.books.next))
             case Some(oc) => Some(Cached(Core(oc.id, Streams(x), oc.pass))))
    || (x.v.step.ERROR? && !Restarts(x, l) && y.v.obj == Some(Own(x.v.books.next)) && !y.v.wrk.do_stream.On?)
  }

  lemma WhatIsSent(v: Sess, f: nat -> Answer, t: nat, l: Limits, j: nat)
    requires Good(v, l) && (v.step.START? || v.step.RECV?)
    requires var tr := Trace(v, f, t, l); j < |tr| && (tr[j].v.step.DELIVER? || tr[j].v.step.STREAMBODY?)
    ensures var tr := Trace(v, f, t, l);
      && j >= 2 && tr[j - 1].v.step.PREPRESP? && tr[j].v.obj == tr[j - 1].v.obj && Source(tr[j - 2], tr[j - 1], l)
      && (tr[j].v.step.STREAMBODY? <==> tr[j - 1].v.wrk.do_stream.On?)
  {
    TraceIsWhole(v, f, t, l);
    var tr, r := Trace(v, f, t, l), Run(v, f, t, l);
    hide Trace, Run, Whole, Good, Turn;
    FirstIs(tr, v, r, l);
    LastTurnBefore(tr, v, r, l, j);
    DeliverFollows(tr[j - 1], tr[j], l);
    PrepSends(tr[j - 1], tr[j], l);
    LastTurnBefore(tr, v, r, l, j - 1);
    PreparedFrom(tr[j - 2], tr[j - 1], l);
  }

  lemma PreparedFrom(x: Visit, y: Visit, l: Limits)
    requires GoesOn(x) && y.v == Turn(x.v, x.a, l) && Good(x.v, l) && y.v.step.PREPRESP?
    ensures Source(x, y, l)
  {
    hide Good, Turn;
    DeliverFollows(x, y, l);
    if x.v.step.HIT? { HitGoes(x, y, l); }
    else if x.v.step.FETCHBODY? { BodyStores(x, y, l); }
    else { ErrorMakes(x, y, l); }
  }

  /** The backend is asked only for a core that the lookup just before inserted and vcl_miss wants fetched, or
      after vcl_pass; and a stored object is marked for passing exactly if vcl_fetch said so. */
  lemma WhatIsStored(v: Sess, f: nat -> Answer, t: nat, l: Limits, i: nat)
    requires Good(v, l) && (v.step.START? || v.step.RECV?)
    requires var tr := Trace(v, f, t, l); i < |tr| && tr[i].v.step.FETCH?
    ensures var tr := Trace(v, f, t, l);
      && i >= 2 && i + 1 < |tr|
      && (tr[i].v.objcore.None? ==> tr[i - 1].v.step.PASS? && tr[i - 1].a.pass.PassPass?)
      && (tr[i].v.objcore.Some? ==>
            && tr[i - 1].v.step.MISS? && tr[i - 1].a.miss.MissFetch? && tr[i - 2].v.step.LOOKUP?
            && Inserts(tr[i - 2])
            && tr[i].v.objcore == Some(Core(tr[i - 2].v.books.next, true, false))
            && (tr[i + 1].v.step.FETCHBODY? ==>
                  tr[i + 1].v.objcore == Some(Core(tr[i - 2].v.books.next, true, tr[i].a.fetch.FetchHitForPass?))))
  {
    TraceIsWhole(v, f, t, l);
    var tr, r := Trace(v, f, t, l), Run(v, f, t, l);
    hide Trace, Run, Whole, Good, Turn;
    FirstIs(tr, v, r, l);
    LastTurnBefore(tr, v, r, l, i);
    FetchFollows(tr[i - 1], tr[i], l);
    NextTurn(tr, v, r, l, i);
    LastTurnBefore(tr, v, r, l, i - 1);
    LookupFollows(tr[i - 2], tr[i - 1], l);
    if tr[i - 1].v.step.MISS? {
      LookupTakes(tr[i - 2], tr[i - 1], l);
      MissGoes(tr[i - 1], tr[i], l);
    } else {
      PassHasNoCore(tr[i - 1], tr[i], l);
    }
    if tr[i + 1].v.step.FETCHBODY? { FetchMarks(tr[i], tr[i + 1], l); }
  }

  lemma PassHasNoCore(x: Visit, y: Visit, l: Limits)
    requires GoesOn(x) && y.v == Turn(x.v, x.a, l) && Good(x.v, l) && x.v.step.PASS?
    ensures y.v.objcore == None
  {
    hide Ledger;
  }

  /** A run parks exactly if it comes to a lookup of the request itself, not of a sub-request, that finds
      nothing but busy objects. */
  lemma ParksExactly(v: Sess, f: nat -> Answer, t: nat, l: Limits)
    requires Good(v, l)
    ensures var tr, r := Trace(v, f, t, l), Run(v, f, t, l);
      && tr != []
      && var last := tr[|tr| - 1];
         r.0.Parked? <==> last.v.step.LOOKUP? && last.v.esi_level == 0 && last.a.outcome.Busy?
  {
    TraceIsWhole(v, f, t, l);
    hide Good, Linked, Trace, Run;
  }

  // ---- what becomes of a core that was inserted ----

  /** The body of a core is in storage, or was refused: either way the core is not busy any more. */
  lemma BodyReadies(x: Visit, y: Visit, l: Limits)
    requires GoesOn(x) && y.v == Turn(x.v, x.a, l) && Good(x.v, l) && x.v.step.FETCHBODY? && x.v.objcore.Some?
    ensures !Streams(x) ==> x.v.objcore.value.id in y.v.books.ready
    ensures Streams(x) ==> y.v.step.PREPRESP?
  {
    var p := Prepared(x.v, x.a);
    PreparedHas(x.v, x.a);
    FetchedHas(p);
    MadeOf(x.v);
    assert p.wrk.do_stream.On? <==> Streams(x);
    hide Ledger, Prepared, Fetched, NewObject, WorkFor, DropObj, Unbusy;
    UnbusyIs(Fetched(p));
    DropKeepsReady(Unbusy(Fetched(p)));
  }

  lemma DropKeepsReady(v: Sess)
    ensures DropObj(v).books.ready == v.books.ready
  {
  }

  /** A core whose body is streamed is made not busy when the body is through, or vcl_deliver restarts. */
  lemma StreamReadies(x: Visit, y: Visit, l: Limits)
    requires GoesOn(x) && y.v == Turn(x.v, x.a, l) && Good(x.v, l)
    requires x.v.obj.Some? && x.v.obj.value.Cached? && x.v.wrk.do_stream.On?
    requires (x.v.step.STREAMBODY? && x.a.body) || (x.v.step.PREPRESP? && Restarts(x, l))
    ensures x.v.obj.value.oc.id in y.v.books.ready
  {
    UnbusyIs(Fetched(x.v));
    DropKeepsReady(Unbusy(Fetched(x.v)));
    UnbusyIs(LetGo(x.v));
    DropKeepsReady(Unbusy(LetGo(x.v)));
    SameObj(x.v);
    hide Ledger, Fetched, Unbusy, DropObj, LetGo;
  }

  lemma SameObj(v: Sess)
    ensures Fetched(v).obj == LetGo(v).obj == v.obj
  {
  }

  /** The only reference to a busy core is given up, and the core goes with it. */
  predicate GivesUpOn(x: Visit, id: nat) {
    && Has(x.v, id)
    && ((x.v.step.MISS? && !x.a.miss.MissFetch?)
        || (x.v.step.FETCH? && !x.a.fetch.FetchDeliver? && !x.a.fetch.FetchHitForPass?)
        || (x.v.step.STREAMBODY? && !x.a.body))
  }

  /** No core stays busy: in every run that does not fail, each core that a lookup inserts is made not busy later in
      the run, or given up with the only reference to it. */
  lemma InsertedIsSettled(v: Sess, f: nat -> Answer, t: nat, l: Limits, i: nat)
    requires Good(v, l) && !Run(v, f, t, l).0.Panicked?
    requires var tr := Trace(v, f, t, l); i < |tr| && tr[i].v.step.LOOKUP? && Inserts(tr[i])
    ensures var tr := Trace(v, f, t, l);
      exists j :: i < j < |tr| && (tr[i].v.books.next in tr[j].v.books.ready || GivesUpOn(tr[j], tr[i].v.books.next))
  {
    TraceIsWhole(v, f, t, l);
    var tr, r := Trace(v, f, t, l), Run(v, f, t, l);
    var id := tr[i].v.books.next;
    hide Trace, Run, Whole, Good, Turn;
    NextTurn(tr, v, r, l, i);
    LookupFollows(tr[i], tr[i + 1], l);
    LookupTakes(tr[i], tr[i + 1], l);
    if tr[i + 1].a.miss.MissFetch? {
      NextTurn(tr, v, r, l, i + 1);
      FetchFollows(tr[i + 1], tr[i + 2], l);
      MissGoes(tr[i + 1], tr[i + 2], l);
      FetchedIsSettled(tr, v, r, l, i + 2, id);
    } else {
      assert GivesUpOn(tr[i + 1], id);
    }
  }

  lemma FetchedIsSettled(tr: seq<Visit>, v: Sess, r: (Result, Sess, nat), l: Limits, i: nat, id: nat)
    requires Whole(tr, v, r, l) && !r.0.Panicked? && i < |tr| && tr[i].v.step.FETCH?
    requires tr[i].v.objcore.Some? && tr[i].v.objcore.value.id == id
    ensures exists j :: i <= j < |tr| && (id in tr[j].v.books.ready || GivesUpOn(tr[j], id))
  {
    hide Whole, Good, Turn;
    var a := tr[i].a.fetch;
    if a.FetchDeliver? || a.FetchHitForPass? {
      NextTurn(tr, v, r, l, i);
      FetchFollows(tr[i], tr[i + 1], l);
      FetchMarks(tr[i], tr[i + 1], l);
      NoneStuck(tr, v, r, l, i + 1);
      NextTurn(tr, v, r, l, i + 1);
      BodyReadies(tr[i + 1], tr[i + 2], l);
      if Streams(tr[i + 1]) {
        BodyStores(tr[i + 1], tr[i + 2], l);
        NextTurn(tr, v, r, l, i + 2);
        DeliverFollows(tr[i + 2], tr[i + 3], l);
        StreamedIsSettled(tr, v, r, l, i + 2, id);
      }
    } else {
      assert GivesUpOn(tr[i], id);
    }
  }

  lemma StreamedIsSettled(tr: seq<Visit>, v: Sess, r: (Result, Sess, nat), l: Limits, i: nat, id: nat)
    requires Whole(tr, v, r, l) && i + 1 < |tr| && tr[i].v.step.PREPRESP? && tr[i].v.wrk.do_stream.On?
    requires tr[i].v.obj.Some? && tr[i].v.obj.value.Cached? && tr[i].v.obj.value.oc.id == id
    ensures exists j :: i <= j < |tr| && (id in tr[j].v.books.ready || GivesUpOn(tr[j], id))
  {
    hide Whole, Good, Turn;
    NextTurn(tr, v, r, l, i);
    if Restarts(tr[i], l) {
      StreamReadies(tr[i], tr[i + 1], l);
    } else {
      DeliverFollows(tr[i], tr[i + 1], l);
      PrepSends(tr[i], tr[i + 1], l);
      PrepStreams(tr[i], tr[i + 1], l);
      if tr[i + 1].a.body {
        NextTurn(tr, v, r, l, i + 1);
        StreamReadies(tr[i + 1], tr[i + 2], l);
      } else {
        assert GivesUpOn(tr[i + 1], id);
      }
    }
  }

  lemma PrepStreams(x: Visit, y: Visit, l: Limits)
    requires GoesOn(x) && y.v == Turn(x.v, x.a, l) && x.v.step.PREPRESP? && !Restarts(x, l)
    ensures y.v.wrk.do_stream == x.v.wrk.do_stream
  {
  }

  /** A run that does not fail gets past each of its turns at FETCHBODY. */
  lemma NoneStuck(tr: seq<Visit>, v: Sess, r: (Result, Sess, nat), l: Limits, i: nat)
    requires Whole(tr, v, r, l) && !r.0.Panicked? && i < |tr| && tr[i].v.step.FETCHBODY?
    ensures !Stuck(tr[i].v)
  {
    hide Good, Turn;
    if i + 1 < |tr| { assert Follows(tr[i], tr[i + 1], l); }
  }

  // ---- how many sub-requests there are ----

  /** Requests that come to an end at a level. */
  function Ends(tr: seq<Visit>, level: nat): nat {
    if tr == [] then 0
    else (if tr[0].v.step.DONE? && tr[0].v.esi_level == level then 1 else 0) + Ends(tr[1..], level)
  }

  lemma {:induction false} EndsJoin(a: seq<Visit>, b: seq<Visit>, level: nat)
    ensures Ends(a + b, level) == Ends(a, level) + Ends(b, level)
  {
    if a == [] {
      assert a + b == b;
    } else {
      assert (a + b)[0] == a[0] && (a + b)[1..] == a[1..] + b;
      EndsJoin(a[1..], b, level);
    }
  }

  lemma EndsOne(x: Visit, level: nat)
    ensures Ends([x], level) == if x.v.step.DONE? && x.v.esi_level == level then 1 else 0
  {
    assert [x][1..] == [];
  }

  /** A run comes to an end once at its own level, and never at a lower one. */
  lemma {:induction false} OneEnd(v: Sess, f: nat -> Answer, t: nat, l: Limits, level: nat)
    requires Good(v, l) && level <= v.esi_level
    ensures Ends(Trace(v, f, t, l), level) == if Run(v, f, t, l).0.Finished? && level == v.esi_level then 1 else 0
    decreases l.max_esi_depth - v.esi_level, Distance(v, l), 1, 0
  {
    hide Good, Turn, Ends;
    var x := Visit(v, f(t));
    EndsOne(x, level);
    if v.step.DONE? || Stuck(v) || Parks(v, f(t)) {
    } else if v.step.DELIVER? {
      DeliveredKeeps(v, l);
      var d, n := Delivering(v), f(t).includes;
      var mid, inside := Includes(d, n, f, t + 1, l), IncludesTrace(d, n, f, t + 1, l);
      IncludesEnd(d, n, f, t + 1, l, level);
      EndsJoin([x], inside, level);
      if mid.0.Finished? {
        DeliveredKeeps(mid.1, l);
        var w := Delivered(mid.1);
        OneEnd(w, f, mid.2, l, level);
        EndsJoin([x] + inside, Trace(w, f, mid.2, l), level);
      }
    } else {
      TurnKeeps(v, f(t), l);
      OnwardMeans(v, Turn(v, f(t), l), l);
      OneEnd(Turn(v, f(t), l), f, t + 1, l, level);
      EndsJoin([x], Trace(Turn(v, f(t), l), f, t + 1, l), level);
    }
  }

  /** The includes of an object each run one sub-request to its end, a level deeper, up to the deepest. */
  lemma {:induction false} IncludesEnd(v: Sess, n: nat, f: nat -> Answer, t: nat, l: Limits, level: nat)
    requires Good(v, l) && v.step.DELIVER? && v.restarts == 0 && level <= v.esi_level + 1
    ensures var tr, r := IncludesTrace(v, n, f, t, l), Includes(v, n, f, t, l);
      && (level <= v.esi_level ==> Ends(tr, level) == 0)
      && (r.0.Finished? && level == v.esi_level + 1 ==>
            Ends(tr, level) == if v.esi_level < l.max_esi_depth then n else 0)
    decreases l.max_esi_depth - v.esi_level, Distance(v, l), 0, n
  {
    hide Good, Turn;
    if n > 0 && v.esi_level < l.max_esi_depth {
      hide Ends;
      SubRequestGood(v, l);
      var sub := SubRequest(v);
      var mid := Run(sub, f, t, l);
      OneEnd(sub, f, t, l, level);
      if mid.0.Finished? {
        ResumeGood(mid.1, v, l);
        var w := Resume(mid.1, v);
        IncludesEnd(w, n - 1, f, mid.2, l, level);
        EndsJoin(Trace(sub, f, t, l), IncludesTrace(w, n - 1, f, mid.2, l), level);
      }
    }
  }
}
