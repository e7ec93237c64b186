/** The request state machine: one session handled by one worker from the start of a request, or from an
    ESI include, until it is done or parked on a busy object. What each step does to the session, and what
    follows for whole runs. */
module RequestMachine {
  import opened Wrappers

  datatype Step =
    | START | RECV | LOOKUP | HIT | MISS | PASS | FETCH | FETCHBODY
    | ERROR | PREPRESP | STREAMBODY | DELIVER | PIPE | DONE

  // ---- what a run is not master of: VCL verdicts and the world outside ----

  datatype Parsed = Junk | Refused | Fine

  datatype RecvVerdict = RecvLookup | RecvPass | RecvPipe | RecvError

  /** A sub-request cannot be piped. */
  datatype SubVerdict = SubLookup | SubPass | SubError

  datatype Outcome = Busy | Found(pass: bool) | Inserted

  /** A sub-request polls until it finds something that is not busy. */
  datatype Polled = SubFound(pass: bool) | SubInserted

  datatype HitVerdict = HitDeliver | HitPass | HitError | HitRestart

  datatype MissVerdict = MissFetch | MissPass | MissError

  datatype PassVerdict = PassPass | PassError

  /** NoHeader when the backend gave no answer. */
  datatype FetchVerdict = NoHeader | FetchDeliver | FetchHitForPass | FetchRestart | FetchError

  datatype DeliverVerdict = DeliverDeliver | DeliverRestart

  datatype ErrorVerdict = ErrorDeliver | ErrorRestart

  /** What the response headers and vcl_fetch make of a response: whether it has a length, ends with the
      connection, is to be parsed for ESI, streamed, or stored in a place of its own. */
  datatype Header = Header(length: bool, close: bool, esi: bool, stream: bool, hint: bool)

  /** What one turn of the machine may come across. `filter` says that the body needs processing, `keep` that
      nothing but ESI speaks against streaming it, `body` that it can be fetched whole, `connect` that there is
      a backend to pipe to, and `includes` counts the ESI includes delivered. */
  datatype Answer = Answer(
    parsed: Parsed, recv: RecvVerdict, sub: SubVerdict, outcome: Outcome, polled: Polled, hit: HitVerdict,
    miss: MissVerdict, pass: PassVerdict, header: Header, fetch: FetchVerdict, filter: bool, keep: bool,
    body: bool, connect: bool, deliver: DeliverVerdict, error: ErrorVerdict, includes: nat)

  // ---- the session ----

  /** A flag of the session or the worker, or whether a pointer of theirs is set. */
  datatype Flag = Off | On

  function Set(b: bool): Flag { if b then On else Off }

  /** An object core the session has a reference to; `id` names the reference. */
  datatype Core = Core(id: nat, busy: bool, pass: bool)

  /** An object: one in the cache with the reference of its core, or one of the session's own. */
  datatype Obj = Cached(oc: Core) | Own(id: nat)

  function IdOf(o: Obj): nat { if o.Cached? then o.oc.id else o.id }

  /** The worker's scratch pad: what is known of the response on its way. */
  datatype Work = Work(do_esi: Flag, do_stream: Flag, do_close: Flag, h_content_length: Flag,
                       storage_hint: Flag, bereq: Flag, beresp: Flag, vfp: Flag)

  /** The references taken so far are those below `next`; each is held or dropped. `waiting` are those of
      objects whose delivery waits for an include. `ready` are those of cores that were made not busy. */
  datatype Books = Books(next: nat, held: set<nat>, dropped: set<nat>, waiting: set<nat>, ready: set<nat>)

  /** `stale` records that a filtered body was being streamed when vcl_deliver restarted the request. */
  datatype Sess = Sess(
    step: Step, restarts: nat, esi_level: nat, vcl: Flag, director: Flag, obj: Option<Obj>,
    objcore: Option<Core>, vbc: Flag, hash_objhead: Flag, vary: Flag, wrk: Work, books: Books, stale: Flag)

  datatype Limits = Limits(max_restarts: nat, max_esi_depth: nat)

  const Idle := Work(Off, Off, Off, Off, Off, Off, Off, Off)

  /** A session about to read a request. */
  const Begin := Sess(START, 0, 0, Off, Off, None, None, Off, Off, Off, Idle, Books(0, {}, {}, {}, {}), Off)

  function Dropped(b: Books, id: nat): Books { b.(held := b.held - {id}, dropped := b.dropped + {id}) }

  function Taken(b: Books): Books { b.(next := b.next + 1, held := b.held + {b.next}) }

  // ---- what each step does ----

  function Goto(v: Sess, step: Step): Sess { v.(step := step) }

  function Restart(v: Sess): Sess { v.(step := RECV, restarts := v.restarts + 1, director := Off) }

  function DropObj(v: Sess): Sess {
    if v.obj.None? then v else v.(obj := None, books := Dropped(v.books, IdOf(v.obj.value)))
  }

  function DropCore(v: Sess): Sess {
    if v.objcore.None? then v else v.(objcore := None, books := Dropped(v.books, v.objcore.value.id))
  }

  /** STV_NewObject: the object takes over the reference of the object core, if there is one. */
  function NewObject(v: Sess): Sess {
    match v.objcore
    case Some(oc) => v.(obj := Some(Cached(oc)), objcore := None)
    case None => v.(obj := Some(Own(v.books.next)), books := Taken(v.books))
  }

  function Unbusy(v: Sess): Sess {
    if v.obj.Some? && v.obj.value.Cached? then
      v.(obj := Some(Cached(v.obj.value.oc.(busy := false))),
         books := v.books.(ready := v.books.ready + {v.obj.value.oc.id}))
    else v
  }

  /** The connection is closed or given back. */
  function LetGo(v: Sess): Sess { v.(vbc := Off, wrk := v.wrk.(do_close := Off)) }

  /** The request to the backend and its response are forgotten. */
  function Forget(v: Sess): Sess {
    v.(wrk := v.wrk.(bereq := Off, beresp := Off, h_content_length := Off))
  }

  function Plainly(v: Sess): Sess { v.(wrk := v.wrk.(do_esi := Off, do_stream := Off)) }

  function CntStart(v: Sess, a: Answer): Sess {
    Goto(v.(vcl := On), match a.parsed case Junk => DONE case Refused => ERROR case Fine => RECV)
  }

  function RecvStep(v: Sess, a: Answer): Step {
    if v.esi_level > 0 then match a.sub case SubLookup => LOOKUP case SubPass => PASS case SubError => ERROR
    else match a.recv
      case RecvLookup => LOOKUP case RecvPass => PASS case RecvPipe => PIPE case RecvError => ERROR
  }

  function CntRecv(v: Sess, a: Answer, max: nat): Sess {
    var v1 := v.(director := On);
    if v.restarts >= max then Goto(v1, ERROR) else Goto(Plainly(v1), RecvStep(v, a))
  }

  /** What a lookup comes back with; None when the session is parked. */
  function LookedUp(v: Sess, a: Answer): Option<Polled> {
    if v.esi_level > 0 then Some(a.polled)
    else match a.outcome
      case Busy => None
      case Found(pass) => Some(SubFound(pass))
      case Inserted => Some(SubInserted)
  }

  function CntLookup(v: Sess, a: Answer): Sess {
    match LookedUp(v, a)
    case None => v.(vary := On, hash_objhead := On)
    case Some(p) =>
      var v1 := v.(vary := Off, hash_objhead := Off, books := Taken(v.books));
      match p
      case SubInserted => v1.(objcore := Some(Core(v.books.next, true, false)), step := MISS)
      case SubFound(pass) =>
        var v2 := v1.(obj := Some(Cached(Core(v.books.next, false, pass))), step := HIT);
        if pass then Goto(DropObj(v2), PASS) else v2
  }

  function CntHit(v: Sess, a: Answer): Sess {
    match a.hit
    case HitDeliver => Goto(v, PREPRESP)
    case HitPass => Goto(DropObj(v), PASS)
    case HitError => Goto(DropObj(v), ERROR)
    case HitRestart => Restart(DropObj(v))
  }

  function CntMiss(v: Sess, a: Answer): Sess {
    match a.miss
    case MissFetch => Goto(v.(wrk := v.wrk.(bereq := On)), FETCH)
    case MissPass => Goto(DropCore(v.(wrk := v.wrk.(bereq := On))), PASS)
    case MissError => Goto(DropCore(v.(wrk := v.wrk.(bereq := Off))), ERROR)
  }

  function CntPass(v: Sess, a: Answer): Sess {
    if a.pass.PassError? then Goto(v.(wrk := v.wrk.(bereq := Off)), ERROR)
    else Goto(v.(wrk := v.wrk.(bereq := On)), FETCH)
  }

  /** The response headers are there, and vcl_fetch has had its say. */
  function GotHeader(v: Sess, h: Header): Sess {
    v.(vbc := On, wrk := v.wrk.(beresp := On, h_content_length := Set(h.length), do_close := Set(h.close),
                                  do_esi := Set(h.esi), do_stream := Set(h.stream), storage_hint := Set(h.hint)))
  }

  /** A fetch that comes to nothing. */
  function GiveUp(v: Sess): Sess {
    var v1 := Forget(DropCore(v));
    v1.(director := Off, wrk := v1.wrk.(storage_hint := Off))
  }

  function CntFetch(v: Sess, a: Answer): Sess {
    var v1 := GotHeader(v, a.header);
    match a.fetch
    case NoHeader => Goto(GiveUp(v), ERROR)
    case FetchDeliver => Goto(v1, FETCHBODY)
    case FetchHitForPass =>
      Goto(if v.objcore.Some? then v1.(objcore := Some(v.objcore.value.(pass := true))) else v1, FETCHBODY)
    case FetchRestart => Restart(GiveUp(LetGo(v1)))
    case FetchError => Goto(GiveUp(LetGo(v1)), ERROR)
  }

  /** The filter for the body is set; ESI, sub-requests and what else may be said against it stop streaming. */
  function WorkFor(w: Work, sub: bool, a: Answer): Work {
    w.(vfp := Set(w.do_esi.On? || a.filter), storage_hint := Off,
       do_stream := Set(w.do_stream.On? && !w.do_esi.On? && !sub && a.keep))
  }

  /** A new object for the body, with the filter for it set. */
  function Prepared(v: Sess, a: Answer): Sess { NewObject(v.(wrk := WorkFor(v.wrk, v.esi_level > 0, a))) }

  /** The body was fetched, or not; either way the backend is let go. */
  function Fetched(v: Sess): Sess {
    var v1 := Forget(LetGo(v));
    v1.(wrk := v1.wrk.(vfp := Off))
  }

  function CntFetchbody(v: Sess, a: Answer): Sess {
    var v1 := Prepared(v, a);
    if v1.wrk.do_stream.On? then Goto(v1, PREPRESP)
    else if a.body then Goto(Unbusy(Fetched(v1)), PREPRESP)
    else Goto(DropObj(Unbusy(Fetched(v1))), ERROR)
  }

  function CntError(v: Sess, a: Answer, max: nat): Sess {
    var v1 := NewObject(Plainly(v));
    if a.error.ErrorRestart? && v.restarts < max then Restart(DropObj(Unbusy(v1)))
    else Goto(v1.(wrk := v1.wrk.(bereq := Off)), PREPRESP)
  }

  function CntPrepresp(v: Sess, a: Answer, max: nat): Sess {
    if a.deliver.DeliverRestart? && v.restarts < max then
      if v.wrk.do_stream.On?
      then Restart(Forget(DropObj(Unbusy(LetGo(v))))).(stale := Set(v.stale.On? || v.wrk.vfp.On?))
      else Restart(Forget(DropObj(v)))
    else Goto(v, if v.wrk.do_stream.On? then STREAMBODY else DELIVER)
  }

  function CntStreambody(v: Sess, a: Answer): Sess {
    var v1 := Fetched(v);
    Goto(DropObj(if a.body then Unbusy(v1) else v1).(director := Off, restarts := 0), DONE)
  }

  function CntPipe(v: Sess, a: Answer): Sess {
    var v1 := v.(wrk := v.wrk.(bereq := Off));
    Goto(if a.connect then LetGo(v1) else v1, DONE)
  }

  /** The end of cnt_deliver, when the body has been sent. */
  function Delivered(v: Sess): Sess { Goto(DropObj(v), DONE) }

  /** cnt_done, as far as the request goes. */
  function CntDone(v: Sess): Sess {
    Plainly(v).(director := Off, restarts := 0, vcl := Set(v.vcl.On? && v.esi_level > 0))
  }

  /** Every step but DELIVER, which may start sub-requests, and DONE. */
  function Turn(v: Sess, a: Answer, l: Limits): Sess {
    match v.step
    case START => CntStart(v, a)
    case RECV => CntRecv(v, a, l.max_restarts)
    case LOOKUP => CntLookup(v, a)
    case HIT => CntHit(v, a)
    case MISS => CntMiss(v, a)
    case PASS => CntPass(v, a)
    case FETCH => CntFetch(v, a)
    case FETCHBODY => CntFetchbody(v, a)
    case ERROR => CntError(v, a, l.max_restarts)
    case PREPRESP => CntPrepresp(v, a, l.max_restarts)
    case STREAMBODY => CntStreambody(v, a)
    case PIPE => CntPipe(v, a)
    case _ => v
  }

  // ---- what holds between steps ----

  /** The references of the session, apart from those of waiting deliveries. */
  function Mine(obj: Option<Obj>, objcore: Option<Core>): set<nat> {
    (if obj.Some? then {IdOf(obj.value)} else {}) + (if objcore.Some? then {objcore.value.id} else {})
  }

  /** Every reference taken is held or was dropped, never both. */
  ghost predicate Ledger(mine: set<nat>, b: Books) {
    && b.held == mine + b.waiting && mine !! b.waiting && b.held !! b.dropped
    && (forall i: nat :: i in b.held || i in b.dropped <==> i < b.next)
  }

  /** Nothing of a backend response is left in the worker. */
  predicate NoResponse(v: Sess) {
    !v.vbc.On? && !v.wrk.h_content_length.On? && !v.wrk.do_close.On? && !v.wrk.storage_hint.On? && !v.wrk.beresp.On?
  }

  predicate Clean(v: Sess) { NoResponse(v) && !v.wrk.bereq.On? }

  predicate Plain(v: Sess) { !v.wrk.do_esi.On? && !v.wrk.do_stream.On? }

  predicate Alone(v: Sess) { v.obj == None && v.objcore == None }

  /** A core that was inserted for this request and is still busy. */
  predicate BusyCore(oc: Option<Core>) { oc.Some? ==> oc.value.busy }

  predicate BusyObj(o: Option<Obj>) { o.Some? && (o.value.Cached? ==> o.value.oc.busy) }

  predicate ReadyObj(o: Option<Obj>) { o.Some? && (o.value.Cached? ==> !o.value.oc.busy) }

  /** What each step finds; this is what the assertions of the steps rely on. */
  predicate AtStep(v: Sess) {
    match v.step
    case START => Alone(v) && Clean(v) && Plain(v) && !v.director.On?
    case RECV => Alone(v) && Clean(v) && !v.director.On?
    case LOOKUP => Alone(v) && Clean(v) && Plain(v) && v.director.On?
    case HIT =>
      && v.obj.Some? && v.obj.value.Cached? && !v.obj.value.oc.busy && !v.obj.value.oc.pass
      && v.objcore == None && Clean(v) && Plain(v) && v.director.On?
    case MISS => v.obj == None && v.objcore.Some? && v.objcore.value.busy && Clean(v) && Plain(v) && v.director.On?
    case PASS => Alone(v) && NoResponse(v) && Plain(v) && v.director.On?
    case FETCH => v.obj == None && BusyCore(v.objcore) && NoResponse(v) && Plain(v) && v.director.On?
    case FETCHBODY => v.obj == None && BusyCore(v.objcore) && v.vbc.On? && v.director.On?
    case ERROR => Alone(v) && Clean(v)
    case PREPRESP =>
      && v.objcore == None && !v.wrk.storage_hint.On?
      && if v.wrk.do_stream.On? then v.vbc.On? && v.director.On? && BusyObj(v.obj) else Clean(v) && ReadyObj(v.obj)
    case STREAMBODY =>
      && v.objcore == None && !v.wrk.storage_hint.On? && v.wrk.do_stream.On?
      && v.vbc.On? && v.director.On? && BusyObj(v.obj)
    case DELIVER => v.objcore == None && Clean(v) && !v.wrk.do_stream.On? && ReadyObj(v.obj)
    case PIPE => Alone(v) && Clean(v)
    case DONE => Alone(v) && Clean(v)
  }

  /** A filter is set while a body is streamed, and for ever once one was left behind. */
  predicate Filtered(v: Sess) {
    && (v.stale.On? ==> v.wrk.vfp.On? && !(v.wrk.do_stream.On? && (v.step.PREPRESP? || v.step.STREAMBODY?)))
    && (v.wrk.vfp.On? ==> v.stale.On? || (v.wrk.do_stream.On? && (v.step.PREPRESP? || v.step.STREAMBODY?)))
  }

  /** Steps a request only gets to when it may still be restarted. */
  predicate Restartable(s: Step) {
    s.LOOKUP? || s.HIT? || s.MISS? || s.PASS? || s.FETCH? || s.FETCHBODY?
  }

  predicate InBounds(v: Sess, l: Limits) {
    && v.restarts <= l.max_restarts && (Restartable(v.step) ==> v.restarts < l.max_restarts)
    && v.esi_level <= l.max_esi_depth && (v.esi_level > 0 ==> v.vcl.On? && !v.step.START? && !v.step.PIPE?)
    && (v.step.START? ==> !v.vcl.On? && v.restarts == 0) && (!v.step.START? && !v.step.DONE? ==> v.vcl.On?)
    && (v.vary.On? <==> v.hash_objhead.On?) && (v.hash_objhead.On? ==> v.step.LOOKUP?)
  }

  ghost predicate Good(v: Sess, l: Limits) {
    Ledger(Mine(v.obj, v.objcore), v.books) && AtStep(v) && Filtered(v) && InBounds(v, l)
    && (v.obj.Some? && v.objcore.Some? ==> IdOf(v.obj.value) != v.objcore.value.id)
  }

  /** How far a step is from the end, apart from restarts. */
  function Rank(s: Step): nat {
    match s
    case START => 13 case RECV => 12 case LOOKUP => 11 case HIT => 10 case MISS => 10 case PASS => 9
    case FETCH => 8 case FETCHBODY => 7 case ERROR => 6 case PREPRESP => 5 case STREAMBODY => 4
    case DELIVER => 3 case PIPE => 2 case DONE => 1
  }

  /** Steps from which there is no way back to RECV. */
  predicate Final(s: Step) { s.STREAMBODY? || s.DELIVER? || s.PIPE? || s.DONE? }

  /** Restarts left, then steps left; past the last chance to restart there are none, though the count of
      restarts is cleared there. */
  function Distance(v: Sess, l: Limits): nat {
    Rank(v.step) + if Final(v.step) || v.restarts > l.max_restarts then 0
                   else 20 * (1 + l.max_restarts - v.restarts)
  }

  // ---- every step keeps it and leads on ----

  /** A step that is not the last: what it keeps, and that it leads on. */
  ghost predicate Onward(v: Sess, v': Sess, l: Limits) {
    Good(v', l) && Distance(v', l) < Distance(v, l)
    && v'.esi_level == v.esi_level && v'.books.waiting == v.books.waiting
    && (v.stale.On? ==> v'.stale.On?)
  }

  lemma DropKeepsLedger(mine: set<nat>, b: Books, id: nat)
    requires Ledger(mine, b) && id in mine
    ensures Ledger(mine - {id}, Dropped(b, id))
  {
  }

  lemma TakeKeepsLedger(mine: set<nat>, b: Books)
    requires Ledger(mine, b)
    ensures Ledger(mine + {b.next}, Taken(b)) && b.next !in mine
  {
    assert b.next !in b.held && b.next !in b.dropped;
  }

  lemma DropObjLedger(v: Sess)
    requires Ledger(Mine(v.obj, v.objcore), v.books) && v.objcore == None
    ensures var v' := DropObj(v); Ledger(Mine(v'.obj, v'.objcore), v'.books)
  {
    if v.obj.Some? {
      DropKeepsLedger(Mine(v.obj, v.objcore), v.books, IdOf(v.obj.value));
      assert Mine(v.obj, v.objcore) - {IdOf(v.obj.value)} == Mine(None, None);
    }
  }

  lemma DropCoreLedger(v: Sess)
    requires Ledger(Mine(v.obj, v.objcore), v.books) && v.obj == None
    ensures var v' := DropCore(v); Ledger(Mine(v'.obj, v'.objcore), v'.books)
  {
    if v.objcore.Some? {
      DropKeepsLedger(Mine(v.obj, v.objcore), v.books, v.objcore.value.id);
      assert Mine(v.obj, v.objcore) - {v.objcore.value.id} == Mine(None, None);
    }
  }

  lemma NewObjectLedger(v: Sess)
    requires Ledger(Mine(v.obj, v.objcore), v.books) && v.obj == None
    ensures var v' := NewObject(v); Ledger(Mine(v'.obj, v'.objcore), v'.books)
  {
    match v.objcore
    case Some(oc) => assert Mine(Some(Cached(oc)), None) == Mine(None, Some(oc));
    case None =>
      TakeKeepsLedger(Mine(None, None), v.books);
      assert Mine(Some(Own(v.books.next)), None) == Mine(None, None) + {v.books.next};
  }

  lemma LookupLedger(v: Sess, oc: Core)
    requires Ledger(Mine(v.obj, v.objcore), v.books) && Alone(v) && oc.id == v.books.next
    ensures Ledger(Mine(Some(Cached(oc)), None), Taken(v.books))
    ensures Ledger(Mine(None, Some(oc)), Taken(v.books))
  {
    TakeKeepsLedger(Mine(None, None), v.books);
    assert Mine(Some(Cached(oc)), None) == Mine(None, None) + {v.books.next} == Mine(None, Some(oc));
  }

  /** What the session has is held. */
  lemma MineIsHeld(v: Sess, l: Limits)
    requires Good(v, l)
    ensures v.obj.Some? ==> IdOf(v.obj.value) in v.books.held
    ensures v.objcore.Some? ==> v.objcore.value.id in v.books.held
  {
  }

  lemma NewIsHeld(v: Sess, a: Answer, l: Limits)
    requires Good(v, l) && v.obj == None
    ensures var p := Prepared(v, a); p.obj.Some? && IdOf(p.obj.value) in p.books.held
  {
    PreparedHas(v, a);
    MineIsHeld(v, l);
  }

  lemma StartKeeps(v: Sess, a: Answer, l: Limits)
    requires Good(v, l) && v.step == START
    ensures Onward(v, CntStart(v, a), l)
  {
    hide Ledger;
  }

  lemma RecvKeeps(v: Sess, a: Answer, l: Limits)
    requires Good(v, l) && v.step == RECV
    ensures Onward(v, CntRecv(v, a, l.max_restarts), l)
  {
    hide Ledger;
  }

  lemma LookupKeeps(v: Sess, a: Answer, l: Limits)
    requires Good(v, l) && v.step == LOOKUP
    ensures var v' := CntLookup(v, a);
      if LookedUp(v, a).None? then Good(v', l) && v' == v.(vary := On, hash_objhead := On) else Onward(v, v', l)
  {
    if LookedUp(v, a).Some? {
      LookupLedger(v, Core(v.books.next, true, false));
      match LookedUp(v, a).value
      case SubInserted =>
      case SubFound(pass) =>
        LookupLedger(v, Core(v.books.next, false, pass));
        DropObjLedger(v.(obj := Some(Cached(Core(v.books.next, false, pass))), books := Taken(v.books)));
    }
    hide Ledger;
  }

  lemma HitKeeps(v: Sess, a: Answer, l: Limits)
    requires Good(v, l) && v.step == HIT
    ensures Onward(v, CntHit(v, a), l)
  {
    hide Ledger;
    DropObjLedger(v);
  }

  lemma MissKeeps(v: Sess, a: Answer, l: Limits)
    requires Good(v, l) && v.step == MISS
    ensures Onward(v, CntMiss(v, a), l)
  {
    hide Ledger;
    DropCoreLedger(v);
  }

  lemma PassKeeps(v: Sess, a: Answer, l: Limits)
    requires Good(v, l) && v.step == PASS
    ensures Onward(v, CntPass(v, a), l)
  {
    hide Ledger;
  }

  lemma FetchKeeps(v: Sess, a: Answer, l: Limits)
    requires Good(v, l) && v.step == FETCH
    ensures Onward(v, CntFetch(v, a), l)
  {
    hide Ledger;
    match a.fetch
    case NoHeader => DropCoreLedger(v);
    case FetchDeliver =>
    case FetchHitForPass =>
      if v.objcore.Some? {
        assert Mine(v.obj, Some(v.objcore.value.(pass := true))) == Mine(v.obj, v.objcore);
      }
    case FetchRestart => DropCoreLedger(v);
    case FetchError => DropCoreLedger(v);
  }

  lemma FetchbodyKeeps(v: Sess, a: Answer, l: Limits)
    requires Good(v, l) && v.step == FETCHBODY && !v.wrk.vfp.On?
    ensures Onward(v, CntFetchbody(v, a), l)
  {
    hide Ledger;
    NewObjectLedger(v);
    if !Prepared(v, a).wrk.do_stream.On? {
      if a.body { StoredBodyKeeps(v, a, l); } else { FailedBodyKeeps(v, a, l); }
    }
  }

  lemma StoredBodyKeeps(v: Sess, a: Answer, l: Limits)
    requires Good(v, l) && v.step == FETCHBODY && !Prepared(v, a).wrk.do_stream.On? && a.body && !v.wrk.vfp.On?
    ensures Onward(v, CntFetchbody(v, a), l)
  {
    hide Ledger;
    NewObjectLedger(v);
    UnbusyLedger(NewObject(v));
  }

  lemma FailedBodyKeeps(v: Sess, a: Answer, l: Limits)
    requires Good(v, l) && v.step == FETCHBODY && !Prepared(v, a).wrk.do_stream.On? && !a.body && !v.wrk.vfp.On?
    ensures Onward(v, CntFetchbody(v, a), l)
  {
    NewObjectLedger(v);
    PreparedHas(v, a);
    FetchedHas(Prepared(v, a));
    hide Ledger, Prepared, Fetched, NewObject;
    DroppedBody(Fetched(Prepared(v, a)), l);
  }

  /** All of a session but its object, the backend connection and the worker. */
  ghost predicate SameRest(v: Sess, v': Sess) {
    && v'.step == v.step && v'.restarts == v.restarts && v'.esi_level == v.esi_level && v'.vcl == v.vcl
    && v'.director == v.director && v'.hash_objhead == v.hash_objhead && v'.vary == v.vary && v'.stale == v.stale
  }

  lemma PreparedHas(v: Sess, a: Answer)
    requires v.obj == None
    ensures var p, o := Prepared(v, a), NewObject(v);
      && SameRest(v, p) && p.obj == o.obj && p.objcore == o.objcore == None && p.books == o.books
      && p.obj.Some? && p.books.waiting == v.books.waiting && !p.wrk.storage_hint.On?
      && p.wrk == WorkFor(v.wrk, v.esi_level > 0, a)
  {
    hide WorkFor;
    NoHint(v.wrk, v.esi_level > 0, a);
    NewObjectHas(v, WorkFor(v.wrk, v.esi_level > 0, a));
  }

  lemma NewObjectHas(v: Sess, w: Work)
    requires v.obj == None
    ensures var p, o := NewObject(v.(wrk := w)), NewObject(v);
      && SameRest(v, p) && p.obj == o.obj && p.objcore == o.objcore == None && p.books == o.books
      && p.obj.Some? && p.books.waiting == v.books.waiting && p.wrk == w
  {
    var u := v.(wrk := w);
    match v.objcore
    case Some(oc) => assert NewObject(u) == u.(obj := Some(Cached(oc)), objcore := None);
    case None => assert NewObject(u) == u.(obj := Some(Own(v.books.next)), books := Taken(v.books));
  }

  lemma NoHint(w: Work, sub: bool, a: Answer)
    ensures !WorkFor(w, sub, a).storage_hint.On?
  {
  }

  lemma FetchedHas(p: Sess)
    ensures var q := Fetched(p);
      && SameRest(p, q) && q.obj == p.obj && q.objcore == p.objcore && q.books == p.books
      && (!p.wrk.storage_hint.On? ==> Clean(q)) && !q.wrk.vfp.On?
  {
  }

  /** Dropping an object whose body could not be fetched. */
  lemma DroppedBody(p: Sess, l: Limits)
    requires Ledger(Mine(p.obj, p.objcore), p.books) && p.obj.Some? && p.objcore == None
    requires Clean(p) && !p.wrk.vfp.On? && !p.stale.On? && InBounds(p, l) && p.step == FETCHBODY
    ensures Onward(p, Goto(DropObj(Unbusy(p)), ERROR), l)
  {
    hide Ledger;
    UnbusyLedger(p);
    DropObjLedger(Unbusy(p));
  }

  lemma UnbusyLedger(v: Sess)
    requires Ledger(Mine(v.obj, v.objcore), v.books)
    ensures var v' := Unbusy(v); Ledger(Mine(v'.obj, v'.objcore), v'.books)
  {
    assert Mine(Unbusy(v).obj, v.objcore) == Mine(v.obj, v.objcore);
  }

  lemma ErrorKeeps(v: Sess, a: Answer, l: Limits)
    requires Good(v, l) && v.step == ERROR
    ensures Onward(v, CntError(v, a, l.max_restarts), l)
  {
    hide Ledger;
    NewObjectLedger(v);
    UnbusyLedger(NewObject(v));
    DropObjLedger(Unbusy(NewObject(v)));
  }

  lemma PreprespKeeps(v: Sess, a: Answer, l: Limits)
    requires Good(v, l) && v.step == PREPRESP
    ensures Onward(v, CntPrepresp(v, a, l.max_restarts), l)
  {
    hide Ledger;
    if a.deliver.DeliverRestart? && v.restarts < l.max_restarts {
      if v.wrk.do_stream.On? { StreamRestartKeeps(v, a, l); } else { DropObjLedger(v); }
    }
  }

  lemma StreamRestartKeeps(v: Sess, a: Answer, l: Limits)
    requires Good(v, l) && v.step == PREPRESP && v.wrk.do_stream.On?
    requires a.deliver.DeliverRestart? && v.restarts < l.max_restarts
    ensures Onward(v, CntPrepresp(v, a, l.max_restarts), l)
  {
    hide Ledger;
    UnbusyLedger(v);
    DropObjLedger(Unbusy(v));
    assert CntPrepresp(v, a, l.max_restarts).step == RECV;
  }

  lemma StreambodyKeeps(v: Sess, a: Answer, l: Limits)
    requires Good(v, l) && v.step == STREAMBODY
    ensures Onward(v, CntStreambody(v, a), l)
  {
    hide Ledger;
    UnbusyLedger(v);
    DropObjLedger(v);
    DropObjLedger(Unbusy(v));
  }

  lemma PipeKeeps(v: Sess, a: Answer, l: Limits)
    requires Good(v, l) && v.step == PIPE
    ensures Onward(v, CntPipe(v, a), l)
  {
    hide Ledger;
  }

  /** Where an assertion would fail: cnt_fetchbody finds a filter in the worker. */
  predicate Stuck(v: Sess) { v.step.FETCHBODY? && v.wrk.vfp.On? }

  /** That happens exactly when a filter was left behind earlier. */
  lemma StuckIsStale(v: Sess, l: Limits)
    requires Good(v, l) && v.step.FETCHBODY?
    ensures Stuck(v) <==> v.stale.On?
  {
  }

  predicate Parks(v: Sess, a: Answer) { v.step.LOOKUP? && LookedUp(v, a).None? }

  /** Every step but the last, a delivery, and a lookup that parks. */
  lemma TurnKeeps(v: Sess, a: Answer, l: Limits)
    requires Good(v, l) && !Stuck(v) && !v.step.DONE? && !v.step.DELIVER? && !Parks(v, a)
    ensures Onward(v, Turn(v, a, l), l)
  {
    hide Good, Onward, CntStart, CntRecv, CntLookup, CntHit, CntMiss, CntPass, CntFetch, CntFetchbody, CntError;
    hide CntPrepresp, CntStreambody, CntPipe;
    match v.step
    case START => StartKeeps(v, a, l);
    case RECV => RecvKeeps(v, a, l);
    case LOOKUP => LookupKeeps(v, a, l);
    case HIT => HitKeeps(v, a, l);
    case MISS => MissKeeps(v, a, l);
    case PASS => PassKeeps(v, a, l);
    case FETCH => FetchKeeps(v, a, l);
    case FETCHBODY => FetchbodyKeeps(v, a, l);
    case ERROR => ErrorKeeps(v, a, l);
    case PREPRESP => PreprespKeeps(v, a, l);
    case STREAMBODY => StreambodyKeeps(v, a, l);
    case PIPE => PipeKeeps(v, a, l);
  }
}
