/** When the one assertion of the request state machine that can fail does fail: over whole runs, ESI
    sub-requests included. */
module RequestPanics {
  import opened Wrappers
  import opened RequestMachine
  import opened RequestRuns

  /** A session at one of its turns, and what it came across there. */
  datatype Visit = Visit(v: Sess, a: Answer)

  /** The turns of a run, those of its sub-requests among them. */
  function Trace(v: Sess, f: nat -> Answer, t: nat, l: Limits): seq<Visit>
    requires Good(v, l)
    decreases l.max_esi_depth - v.esi_level, Distance(v, l), 1, 0
  {
    if v.step.DONE? || Stuck(v) || Parks(v, f(t)) then [Visit(v, f(t))]
    else if v.step.DELIVER? then
      DeliveredKeeps(v, l);
      var (res, v1, t1) := Includes(Delivering(v), f(t).includes, f, t + 1, l);
      var inside := IncludesTrace(Delivering(v), f(t).includes, f, t + 1, l);
      if res.Finished? then
        DeliveredKeeps(v1, l);
        [Visit(v, f(t))] + inside + Trace(Delivered(v1), f, t1, l)
      else [Visit(v, f(t))] + inside
    else
      TurnKeeps(v, f(t), l);
      [Visit(v, f(t))] + Trace(Turn(v, f(t), l), f, t + 1, l)
  }

  function IncludesTrace(v: Sess, n: nat, f: nat -> Answer, t: nat, l: Limits): seq<Visit>
    requires Good(v, l) && v.step.DELIVER? && v.restarts == 0
    decreases l.max_esi_depth - v.esi_level, Distance(v, l), 0, n
  {
    if n == 0 || v.esi_level >= l.max_esi_depth then []
    else
      SubRequestGood(v, l);
      var (res, v1, t1) := Run(SubRequest(v), f, t, l);
      if res.Finished? then
        ResumeGood(v1, v, l);
        Trace(SubRequest(v), f, t, l) + IncludesTrace(Resume(v1, v), n - 1, f, t1, l)
      else Trace(SubRequest(v), f, t, l)
  }

  /** vcl_deliver restarts while a body is being streamed through a filter: the filter stays in the worker. */
  predicate LeavesFilter(x: Visit, l: Limits) {
    && x.v.step.PREPRESP? && x.a.deliver.DeliverRestart? && x.v.restarts < l.max_restarts
    && x.v.wrk.do_stream.On? && x.v.wrk.vfp.On?
  }

  /** Some turn leaves a filter behind. */
  predicate SomeLeft(tr: seq<Visit>, l: Limits) {
    exists i :: 0 <= i < |tr| && LeavesFilter(tr[i], l)
  }

  /** Some turn is about to fetch a body, with a filter left behind before it, or from the start. */
  predicate SomeTrips(tr: seq<Visit>, left: bool, l: Limits) {
    exists j :: 0 <= j < |tr| && tr[j].v.step.FETCHBODY? && (left || SomeLeft(tr[..j], l))
  }

  lemma LeftJoin(a: seq<Visit>, b: seq<Visit>, l: Limits)
    ensures SomeLeft(a + b, l) <==> SomeLeft(a, l) || SomeLeft(b, l)
  {
    var c := a + b;
    if i :| 0 <= i < |a| && LeavesFilter(a[i], l) { assert c[i] == a[i]; }
    if i :| 0 <= i < |b| && LeavesFilter(b[i], l) { assert c[|a| + i] == b[i]; }
  }

  lemma TripsJoin(a: seq<Visit>, b: seq<Visit>, left: bool, l: Limits)
    ensures SomeTrips(a + b, left, l) <==> SomeTrips(a, left, l) || SomeTrips(b, left || SomeLeft(a, l), l)
  {
    var c := a + b;
    hide SomeLeft;
    forall j | 0 <= j < |a| ensures c[..j] == a[..j] && c[j] == a[j] {}
    forall j | 0 <= j < |b|
      ensures c[|a| + j] == b[j] && (SomeLeft(c[..|a| + j], l) <==> SomeLeft(a, l) || SomeLeft(b[..j], l))
    {
      assert c[..|a| + j] == a + b[..j];
      LeftJoin(a, b[..j], l);
    }
  }

  /** What a stretch of a run has to do with the filter. */
  ghost predicate Accounts(tr: seq<Visit>, v: Sess, r: (Result, Sess, nat), l: Limits) {
    && (r.0.Panicked? <==> SomeTrips(tr, v.stale.On?, l))
    && (r.1.stale.On? <==> v.stale.On? || SomeLeft(tr, l))
  }

  lemma AccountsOne(x: Visit, r: (Result, Sess, nat), l: Limits)
    requires r.0.Panicked? <==> x.v.step.FETCHBODY? && x.v.stale.On?
    requires r.1.stale.On? <==> x.v.stale.On? || LeavesFilter(x, l)
    ensures Accounts([x], x.v, r, l)
  {
    assert [x][0] == x;
    assert [x][..0] == [];
  }

  lemma AccountsJoin(a: seq<Visit>, v: Sess, r: (Result, Sess, nat), b: seq<Visit>, w: Sess, s: (Result, Sess, nat),
                     l: Limits)
    requires Accounts(a, v, r, l) && !r.0.Panicked? && Accounts(b, w, s, l) && w.stale == r.1.stale
    ensures Accounts(a + b, v, s, l)
  {
    LeftJoin(a, b, l);
    TripsJoin(a, b, v.stale.On?, l);
  }

  /** A turn that is not stuck leaves a filter behind exactly when it restarts a streamed, filtered body. */
  lemma TurnLeaves(v: Sess, a: Answer, l: Limits)
    requires Good(v, l) && !Stuck(v) && !v.step.DONE? && !v.step.DELIVER?
    ensures Turn(v, a, l).stale.On? <==> v.stale.On? || LeavesFilter(Visit(v, a), l)
  {
    hide Ledger;
    match v.step
    case FETCH => FetchLeaves(v, a);
    case FETCHBODY => BodyLeaves(v, a);
    case _ =>
  }

  lemma LastTurn(v: Sess, f: nat -> Answer, t: nat, l: Limits)
    requires Good(v, l) && (v.step.DONE? || Stuck(v) || Parks(v, f(t)))
    ensures var r := Run(v, f, t, l);
      (r.0.Panicked? <==> v.step.FETCHBODY? && v.stale.On?) && r.1.stale == v.stale && !v.step.PREPRESP?
  {
    if v.step.FETCHBODY? { StuckIsStale(v, l); }
  }

  /** The turns of a run account for its outcome. */
  lemma {:induction false} RunAccounts(v: Sess, f: nat -> Answer, t: nat, l: Limits)
    requires Good(v, l)
    ensures Accounts(Trace(v, f, t, l), v, Run(v, f, t, l), l)
    decreases l.max_esi_depth - v.esi_level, Distance(v, l), 1, 0
  {
    hide Accounts, SomeLeft, SomeTrips, Turn, Good;
    var x, r := Visit(v, f(t)), Run(v, f, t, l);
    if v.step.DONE? || Stuck(v) || Parks(v, f(t)) {
      LastTurn(v, f, t, l);
      AccountsOne(x, r, l);
    } else if v.step.DELIVER? {
      DeliveredKeeps(v, l);
      var d, n := Delivering(v), f(t).includes;
      var mid, inside := Includes(d, n, f, t + 1, l), IncludesTrace(d, n, f, t + 1, l);
      AccountsOne(x, (Finished, d, t), l);
      IncludesAccounts(d, n, f, t + 1, l);
      AccountsJoin([x], v, (Finished, d, t), inside, d, mid, l);
      if mid.0.Finished? {
        DeliveredKeeps(mid.1, l);
        var w := Delivered(mid.1);
        RunAccounts(w, f, mid.2, l);
        AccountsJoin([x] + inside, v, mid, Trace(w, f, mid.2, l), w, r, l);
      }
    } else {
      TurnKeeps(v, f(t), l);
      TurnLeaves(v, f(t), l);
      if v.step.FETCHBODY? { StuckIsStale(v, l); }
      var w := Turn(v, f(t), l);
      AccountsOne(x, (Finished, w, t), l);
      RunAccounts(w, f, t + 1, l);
      AccountsJoin([x], v, (Finished, w, t), Trace(w, f, t + 1, l), w, r, l);
    }
  }

  lemma {:induction false} IncludesAccounts(v: Sess, n: nat, f: nat -> Answer, t: nat, l: Limits)
    requires Good(v, l) && v.step.DELIVER? && v.restarts == 0
    ensures Accounts(IncludesTrace(v, n, f, t, l), v, Includes(v, n, f, t, l), l)
    decreases l.max_esi_depth - v.esi_level, Distance(v, l), 0, n
  {
    if n > 0 && v.esi_level < l.max_esi_depth {
      hide Accounts, SomeLeft, SomeTrips, Good;
      SubRequestGood(v, l);
      var sub := SubRequest(v);
      var mid := Run(sub, f, t, l);
      RunAccounts(sub, f, t, l);
      AccountsFrom(Trace(sub, f, t, l), sub, v, mid, l);
      if mid.0.Finished? {
        ResumeGood(mid.1, v, l);
        var w := Resume(mid.1, v);
        IncludesAccounts(w, n - 1, f, mid.2, l);
        AccountsJoin(Trace(sub, f, t, l), v, mid, IncludesTrace(w, n - 1, f, mid.2, l), w,
                     Includes(v, n, f, t, l), l);
      }
    }
  }

  lemma AccountsFrom(tr: seq<Visit>, v: Sess, w: Sess, r: (Result, Sess, nat), l: Limits)
    requires Accounts(tr, v, r, l) && v.stale == w.stale
    ensures Accounts(tr, w, r, l)
  {
  }

  /** A session on a worker in which the last request left a filter, or did not. */
  function BeginOn(left: bool): Sess { Begin.(wrk := Idle.(vfp := Set(left)), stale := Set(left)) }

  lemma BeginOnGood(left: bool, l: Limits)
    ensures Good(BeginOn(left), l)
  {
    assert Mine(None, None) == {};
  }

  /** A run fails an assertion exactly if some turn restarts while a filtered body is being streamed, and a
      later one, in the request or a sub-request, is about to fetch a body. On a worker in which the request
      before left its filter, it fails exactly if any turn is about to fetch a body. */
  lemma PanicsExactly(left: bool, f: nat -> Answer, l: Limits)
    ensures Good(BeginOn(left), l) && BeginOn(false) == Begin
    ensures var tr := Trace(BeginOn(left), f, 0, l);
      Run(BeginOn(left), f, 0, l).0.Panicked? <==>
        exists j :: 0 <= j < |tr| && tr[j].v.step.FETCHBODY?
          && (left || exists i :: 0 <= i < j && LeavesFilter(tr[i], l))
  {
    BeginOnGood(left, l);
    RunAccounts(BeginOn(left), f, 0, l);
    var tr := Trace(BeginOn(left), f, 0, l);
    hide Run, Trace, Good;
    forall j | 0 <= j < |tr|
      ensures SomeLeft(tr[..j], l) <==> exists i :: 0 <= i < j && LeavesFilter(tr[i], l)
    {
      forall i | 0 <= i < j ensures tr[..j][i] == tr[i] {}
    }
  }

  /** The filter is in the worker after the run exactly if it was there before, or a turn left one. */
  lemma LeftExactly(left: bool, f: nat -> Answer, l: Limits)
    ensures Good(BeginOn(left), l)
    ensures var r, tr := Run(BeginOn(left), f, 0, l), Trace(BeginOn(left), f, 0, l);
      r.0.Finished? ==> (r.1.wrk.vfp.On? <==> left || exists i :: 0 <= i < |tr| && LeavesFilter(tr[i], l))
  {
    BeginOnGood(left, l);
    RunAccounts(BeginOn(left), f, 0, l);
  }
}
