/** The ban list shared by threads that insert bans, hunt down duplicates, create, destroy and check
    objects, and retire the tail: atomic steps at lock regions and at single visits of a ban. */
module BanThreads {
  import opened Wrappers

  /** The bytes of a ban spec from offset 8 on: length, request flag, tests. */
  type Spec = string

  type Http = string

  /** BAN_F_REQ, as kept in byte 12 of the whole spec. */
  predicate IsReq(spec: Spec) { |spec| > 4 && spec[4] as int == 1 }

  /** What ban_evaluate says of a spec, an object and a request. */
  type Eval = (Spec, Http, Http) -> bool

  /** Bans without the request flag do not look at the request. */
  ghost predicate ObjectOnly(eval: Eval) {
    forall spec, o, r, r' | !IsReq(spec) :: eval(spec, o, r) == eval(spec, o, r')
  }

  /** Where a check of an object is: visiting bans, stopped at one that matched, or past its lock region
      with the new ban pointer not written yet. `req` is None for the lurker. */
  datatype Check =
    | Idle
    | Walk(b0: nat, at: nat, skipped: nat, req: Option<Http>)
    | Hit(hit: nat, req: Option<Http>)
    | Moved(b0: nat)
    | Condemned

  /** An object core. `on` is the ban whose object list it is on; `birth` is the newest ban when it was
      created, and `cleared` collects the bans it was evaluated against without a match. */
  datatype Oc = Oc(http: Http, birth: nat, ban: Option<nat>, on: Option<nat>, check: Check,
                   cleared: set<nat>)

  /** A duplicate hunt: it stands at `at` and ends at `be`. */
  datatype Hunt = Hunt(at: nat, be: nat)

  /** A ban is named by how many were inserted before it. The list runs from the newest, ban_start, down
      to `tail`; bans below `tail` are freed. */
  datatype Bans = Bans(
    hist: seq<Spec>,
    tail: nat,
    gone: set<nat>,
    refs: seq<nat>,
    objs: seq<set<nat>>,
    hunts: map<nat, Hunt>,
    tails: multiset<nat>,
    ocs: map<nat, Oc>)

  predicate Sized(s: Bans) {
    s.tail < |s.hist| == |s.refs| == |s.objs|
  }

  function Start(s: Bans): nat
    requires Sized(s)
  {
    |s.hist| - 1
  }

  predicate InList(s: Bans, b: nat) { s.tail <= b < |s.hist| }

  /** After BAN_Init: the magic ban alone, gone from the start. */
  function Init(magic: Spec): Bans {
    Bans([magic], 0, {0}, [0], [{}], map[], multiset{}, map[])
  }

  /** The request a check is made for; ban_evaluate does not look at it for the lurker. */
  function Req(req: Option<Http>): Http { if req.Some? then req.value else "" }

  // ---- the steps ----

  /** The lock region of BAN_Insert. */
  function Insert(s: Bans, spec: Spec, dups: bool): Bans
    requires Sized(s)
  {
    var b := |s.hist|;
    var s1 := s.(hist := s.hist + [spec], refs := s.refs + [0], objs := s.objs + [{}]);
    if dups then
      s1.(refs := s1.refs[s.tail := s1.refs[s.tail] + 1], hunts := s1.hunts[b := Hunt(b, s.tail)])
    else s1
  }

  /** One turn of the hunt of ban `h`: the next older ban is marked if it is the same. */
  function HuntOn(s: Bans, h: nat): Bans
    requires h in s.hunts && s.hunts[h].be < s.hunts[h].at < |s.hist| && h < |s.hist|
  {
    var bi := s.hunts[h].at - 1;
    s.(hunts := s.hunts[h := Hunt(bi, s.hunts[h].be)],
       gone := if bi !in s.gone && s.hist[h] == s.hist[bi] then s.gone + {bi} else s.gone)
  }

  function HuntEnd(s: Bans, h: nat): Bans
    requires h in s.hunts && s.hunts[h].be < |s.refs| && s.refs[s.hunts[h].be] > 0
  {
    var be := s.hunts[h].be;
    s.(refs := s.refs[be := s.refs[be] - 1], hunts := s.hunts - {h})
  }

  /** BAN_NewObjCore. */
  function NewObj(s: Bans, o: nat, http: Http): Bans
    requires Sized(s)
  {
    var b := Start(s);
    s.(refs := s.refs[b := s.refs[b] + 1], objs := s.objs[b := s.objs[b] + {o}],
       ocs := s.ocs[o := Oc(http, b, Some(b), Some(b), Idle, {})])
  }

  /** ban_CheckLast: the last ban goes unless it is the first or referenced. */
  function CheckLast(s: Bans): Bans
    requires Sized(s)
  {
    if s.tail != Start(s) && s.refs[s.tail] == 0 then s.(tail := s.tail + 1) else s
  }

  /** Taking an object off the list of its ban. */
  function TakeOff(s: Bans, o: nat, b: nat): Bans
    requires b < |s.refs| == |s.objs| && s.refs[b] > 0
  {
    s.(refs := s.refs[b := s.refs[b] - 1], objs := s.objs[b := s.objs[b] - {o}])
  }

  /** BAN_DestroyObj. */
  function Destroy(s: Bans, o: nat): Bans
    requires Sized(s) && o in s.ocs
    requires s.ocs[o].ban.Some? ==> s.ocs[o].ban.value < |s.refs| && s.refs[s.ocs[o].ban.value] > 0
  {
    var s1 := s.(ocs := s.ocs - {o});
    if s.ocs[o].ban.None? then s1 else CheckLast(TakeOff(s1, o, s.ocs[o].ban.value))
  }

  function WithCheck(s: Bans, o: nat, c: Check): Bans
    requires o in s.ocs
  {
    s.(ocs := s.ocs[o := s.ocs[o].(check := c)])
  }

  /** ban_check_object up to its loop: reading ban_start. */
  function CheckStart(s: Bans, o: nat, req: Option<Http>): Bans
    requires Sized(s) && o in s.ocs
  {
    if s.ocs[o].ban == Some(Start(s)) then s else WithCheck(s, o, Walk(Start(s), Start(s), 0, req))
  }

  /** The loop visits one ban. */
  function Visit(eval: Eval, s: Bans, o: nat): Bans
    requires o in s.ocs && s.ocs[o].check.Walk? && 0 < s.ocs[o].check.at < |s.hist|
  {
    var c := s.ocs[o].check;
    var spec := s.hist[c.at];
    if c.at in s.gone then WithCheck(s, o, c.(at := c.at - 1))
    else if c.req.None? && IsReq(spec) then WithCheck(s, o, c.(at := c.at - 1, skipped := c.skipped + 1))
    else if eval(spec, s.ocs[o].http, Req(c.req)) then
      WithCheck(s, o, Hit(c.at, c.req))
    else
      s.(ocs := s.ocs[o := s.ocs[o].(check := c.(at := c.at - 1), cleared := s.ocs[o].cleared + {c.at})])
  }

  /** After the loop: give up if tests were skipped, else the lock region that moves the object. */
  function Settle(s: Bans, o: nat): Bans
    requires o in s.ocs && s.ocs[o].check.Walk? && s.ocs[o].ban.Some?
    requires s.ocs[o].ban.value < |s.refs| == |s.objs| && s.refs[s.ocs[o].ban.value] > 0
    requires s.ocs[o].check.b0 < |s.refs|
  {
    var b0 := s.ocs[o].check.b0;
    if s.ocs[o].check.skipped > 0 then WithCheck(s, o, Idle)
    else
      var s1 := TakeOff(s, o, s.ocs[o].ban.value);
      s1.(refs := s1.refs[b0 := s1.refs[b0] + 1], objs := s1.objs[b0 := s1.objs[b0] + {o}],
          ocs := s1.ocs[o := s1.ocs[o].(check := Moved(b0), on := Some(b0))])
  }

  /** The lock region when a ban matched. */
  function Condemn(s: Bans, o: nat): Bans
    requires o in s.ocs && s.ocs[o].ban.Some?
    requires s.ocs[o].ban.value < |s.refs| == |s.objs| && s.refs[s.ocs[o].ban.value] > 0
  {
    var s1 := TakeOff(s, o, s.ocs[o].ban.value);
    s1.(ocs := s1.ocs[o := s1.ocs[o].(check := Condemned, on := None)])
  }

  /** Writing the ban pointer, outside the lock. */
  function WriteBan(s: Bans, o: nat): Bans
    requires o in s.ocs
  {
    var c := s.ocs[o].check;
    s.(ocs := s.ocs[o := s.ocs[o].(check := Idle, ban := if c.Moved? then Some(c.b0) else None)])
  }

  function TailRef(s: Bans): Bans
    requires Sized(s)
  {
    s.(refs := s.refs[s.tail := s.refs[s.tail] + 1], tails := s.tails + multiset{s.tail})
  }

  function TailDeref(s: Bans, b: nat): Bans
    requires b < |s.refs| && s.refs[b] > 0
  {
    s.(refs := s.refs[b := s.refs[b] - 1], tails := s.tails - multiset{b})
  }

  // ---- what every step keeps ----

  /** Hunts that end at a ban hold a reference to it. */
  function Ends(s: Bans, b: nat): set<nat> {
    set h | h in s.hunts && s.hunts[h].be == b
  }

  ghost predicate RefsOK(s: Bans)
    requires Sized(s)
  {
    && (forall b :: 0 <= b < |s.hist| ==> s.refs[b] == |s.objs[b]| + |Ends(s, b)| + s.tails[b])
    && (forall b :: 0 <= b < s.tail ==> s.refs[b] == 0)
    && (forall b :: b in s.tails ==> b < |s.hist|)
  }

  ghost predicate HuntOK(s: Bans, h: nat)
    requires h in s.hunts
  {
    s.hunts[h].be <= s.hunts[h].at <= h < |s.hist|
  }

  ghost predicate HuntsOK(s: Bans) {
    forall h :: h in s.hunts ==> HuntOK(s, h)
  }

  /** A ban marked gone, other than the magic one, has a newer ban with the same spec. */
  ghost predicate Superseded(s: Bans, k: nat) {
    exists k' :: k < k' < |s.hist| && s.hist[k'] == s.hist[k]
  }

  ghost predicate GoneOK(s: Bans) {
    forall k :: k in s.gone ==> k < |s.hist| && (k == 0 || Superseded(s, k))
  }

  /** On whose object list an object is. */
  ghost predicate ListsOK(s: Bans)
    requires Sized(s)
  {
    && (forall o :: o in s.ocs && s.ocs[o].on.Some? ==>
          s.ocs[o].on.value < |s.hist| && o in s.objs[s.ocs[o].on.value])
    && (forall b, o :: 0 <= b < |s.hist| && o in s.objs[b] ==> o in s.ocs && s.ocs[o].on == Some(b))
  }

  /** Bans between two places are dealt with: evaluated without a match, or gone. */
  ghost predicate Passed(s: Bans, oc: Oc, from: nat, to: nat) {
    forall k :: from < k <= to ==> k in oc.cleared || k in s.gone
  }

  ghost predicate NoneSkipped(s: Bans, from: nat, to: nat) {
    forall k :: from < k <= to && k < |s.hist| ==> k in s.gone || !IsReq(s.hist[k])
  }

  ghost predicate CheckOK(s: Bans, oc: Oc) {
    match oc.check
    case Idle => oc.on == oc.ban
    case Walk(b0, at, skipped, _) =>
      && oc.on == oc.ban && oc.ban.Some? && oc.ban.value <= at <= b0 < |s.hist|
      && (skipped == 0 ==> Passed(s, oc, at, b0) && (oc.check.req.None? ==> NoneSkipped(s, at, b0)))
    case Hit(hit, _) => oc.on == oc.ban && oc.ban.Some? && oc.ban.value < hit < |s.hist|
    case Moved(b0) => oc.on == Some(b0) && oc.birth <= b0 < |s.hist| && Passed(s, oc, oc.birth, b0)
    case Condemned => oc.on.None?
  }

  /** How far an object has come, and that nothing it passed was missed. */
  ghost predicate OcOK(s: Bans, oc: Oc) {
    && CheckOK(s, oc)
    && oc.birth < |s.hist|
    && (oc.ban.Some? ==> oc.birth <= oc.ban.value < |s.hist| && Passed(s, oc, oc.birth, oc.ban.value))
  }

  ghost predicate OcsOK(s: Bans) {
    forall o :: o in s.ocs ==> OcOK(s, s.ocs[o])
  }

  /** A ban that a walk did not skip does not match, for the request at hand. */
  ghost predicate WalkClear(eval: Eval, s: Bans, http: Http, req: Option<Http>, from: nat, to: nat) {
    && to < |s.hist|
    && forall k :: from < k <= to ==>
      k in s.gone || (req.None? && IsReq(s.hist[k])) || !eval(s.hist[k], http, Req(req))
  }

  /** A ban an object was cleared of does not match it, whatever the request; a walk in progress passed
      nothing that matches, and what it stopped at does match. */
  ghost predicate ClearOK(eval: Eval, s: Bans, oc: Oc) {
    && (forall k :: k in oc.cleared ==> k < |s.hist|)
    && (forall k, r :: k in oc.cleared && !IsReq(s.hist[k]) ==> !eval(s.hist[k], oc.http, r))
    && match oc.check
      case Walk(b0, at, _, req) => WalkClear(eval, s, oc.http, req, at, b0)
      case Hit(hit, req) => hit < |s.hist| && eval(s.hist[hit], oc.http, Req(req))
      case _ => true
  }

  ghost predicate ClearedOK(eval: Eval, s: Bans) {
    forall o :: o in s.ocs ==> ClearOK(eval, s, s.ocs[o])
  }

  ghost predicate Inv(eval: Eval, s: Bans) {
    Sized(s) && RefsOK(s) && HuntsOK(s) && GoneOK(s) && ListsOK(s) && OcsOK(s) && ClearedOK(eval, s)
  }

  // ---- steps as moves ----

  datatype Move =
    | DoInsert(spec: Spec, dups: bool)
    | DoHunt(h: nat)
    | DoHuntEnd(h: nat)
    | DoNewObj(o: nat, http: Http)
    | DoDestroy(o: nat)
    | DoStart(o: nat, req: Option<Http>)
    | DoVisit(o: nat)
    | DoSettle(o: nat)
    | DoCondemn(o: nat)
    | DoWrite(o: nat)
    | DoRetire
    | DoTailRef
    | DoTailDeref(b: nat)

  /** Which moves the program can make. Nothing here says that a ban is still in the list or referenced. */
  predicate Enabled(s: Bans, m: Move) {
    match m
    case DoInsert(_, _) => true
    case DoHunt(h) => h in s.hunts && s.hunts[h].at != s.hunts[h].be
    case DoHuntEnd(h) => h in s.hunts && s.hunts[h].at == s.hunts[h].be
    case DoNewObj(o, _) => o !in s.ocs
    case DoDestroy(o) => o in s.ocs && s.ocs[o].check.Idle?
    case DoStart(o, _) => o in s.ocs && s.ocs[o].check.Idle? && s.ocs[o].ban.Some?
    case DoVisit(o) =>
      o in s.ocs && s.ocs[o].check.Walk? && Some(s.ocs[o].check.at) != s.ocs[o].ban
    case DoSettle(o) =>
      o in s.ocs && s.ocs[o].check.Walk? && Some(s.ocs[o].check.at) == s.ocs[o].ban
    case DoCondemn(o) => o in s.ocs && s.ocs[o].check.Hit?
    case DoWrite(o) => o in s.ocs && (s.ocs[o].check.Moved? || s.ocs[o].check.Condemned?)
    case DoRetire => true
    case DoTailRef => true
    case DoTailDeref(b) => b in s.tails
  }

  /** A ban that may be touched and whose count may be lowered. */
  predicate Held(s: Bans, b: nat)
    requires Sized(s)
  {
    InList(s, b) && s.refs[b] > 0
  }

  /** What the move touches is in the list and referenced, and objects leave only lists they are on. */
  predicate Safe(s: Bans, m: Move) {
    && Sized(s)
    && match m
      case DoHunt(h) =>
        h in s.hunts && s.hunts[h].be < s.hunts[h].at <= h && InList(s, h) && InList(s, s.hunts[h].at - 1)
      case DoHuntEnd(h) => h in s.hunts && Held(s, s.hunts[h].be)
      case DoDestroy(o) =>
        o in s.ocs && (s.ocs[o].ban.Some? ==>
          Held(s, s.ocs[o].ban.value) && o in s.objs[s.ocs[o].ban.value])
      case DoStart(o, _) => o in s.ocs
      case DoVisit(o) => o in s.ocs && s.ocs[o].check.Walk? && 0 < s.ocs[o].check.at && InList(s, s.ocs[o].check.at)
      case DoSettle(o) =>
        && o in s.ocs && s.ocs[o].check.Walk? && s.ocs[o].ban.Some? && InList(s, s.ocs[o].check.b0)
        && Held(s, s.ocs[o].ban.value) && o in s.objs[s.ocs[o].ban.value]
      case DoCondemn(o) =>
        && o in s.ocs && s.ocs[o].ban.Some?
        && Held(s, s.ocs[o].ban.value) && o in s.objs[s.ocs[o].ban.value]
      case DoWrite(o) => o in s.ocs
      case DoTailDeref(b) => Held(s, b)
      case _ => true
  }

  function Step(eval: Eval, s: Bans, m: Move): Bans
    requires Safe(s, m)
  {
    match m
    case DoInsert(spec, dups) => Insert(s, spec, dups)
    case DoHunt(h) => HuntOn(s, h)
    case DoHuntEnd(h) => HuntEnd(s, h)
    case DoNewObj(o, http) => NewObj(s, o, http)
    case DoDestroy(o) => Destroy(s, o)
    case DoStart(o, req) => CheckStart(s, o, req)
    case DoVisit(o) => Visit(eval, s, o)
    case DoSettle(o) => Settle(s, o)
    case DoCondemn(o) => Condemn(s, o)
    case DoWrite(o) => WriteBan(s, o)
    case DoRetire => CheckLast(s)
    case DoTailRef => TailRef(s)
    case DoTailDeref(b) => TailDeref(s, b)
  }

  // ---- nothing freed is touched ----

  /** A ban with an object on it is in the list. */
  lemma ObjectHolds(s: Bans, o: nat)
    requires Sized(s) && RefsOK(s) && ListsOK(s) && o in s.ocs && s.ocs[o].on.Some?
    ensures var b := s.ocs[o].on.value; Held(s, b) && o in s.objs[b]
  {
    var b := s.ocs[o].on.value;
    assert s.objs[b] != {};
  }

  lemma HuntHolds(s: Bans, h: nat)
    requires Sized(s) && RefsOK(s) && HuntsOK(s) && h in s.hunts
    ensures Held(s, s.hunts[h].be)
  {
    assert HuntOK(s, h);
    assert h in Ends(s, s.hunts[h].be);
  }

  /** In every state the invariant allows, the moves of the program touch only bans in the list. */
  lemma MovesAreSafe(eval: Eval, s: Bans, m: Move)
    requires Inv(eval, s) && Enabled(s, m)
    ensures Safe(s, m)
  {
    match m
    case DoHunt(h) => HuntHolds(s, h); assert HuntOK(s, h);
    case DoHuntEnd(h) => HuntHolds(s, h);
    case DoDestroy(o) => assert OcOK(s, s.ocs[o]); if s.ocs[o].on.Some? { ObjectHolds(s, o); }
    case DoVisit(o) => assert OcOK(s, s.ocs[o]); ObjectHolds(s, o);
    case DoSettle(o) => assert OcOK(s, s.ocs[o]); ObjectHolds(s, o);
    case DoCondemn(o) => assert OcOK(s, s.ocs[o]); ObjectHolds(s, o);
    case _ =>
  }

  // ---- every move keeps the invariant ----

  /** More bans, and more of them gone. */
  ghost predicate Grows(s: Bans, s': Bans) {
    s.hist <= s'.hist && s.gone <= s'.gone
  }

  lemma OcGrows(s: Bans, s': Bans, oc: Oc)
    requires OcOK(s, oc) && Grows(s, s')
    ensures OcOK(s', oc)
  {
  }

  lemma OcsGrow(s: Bans, s': Bans)
    requires OcsOK(s) && Grows(s, s') && s'.ocs == s.ocs
    ensures OcsOK(s')
  {
    forall o | o in s'.ocs ensures OcOK(s', s'.ocs[o]) { OcGrows(s, s', s.ocs[o]); }
  }

  lemma ClearGrows(eval: Eval, s: Bans, s': Bans, oc: Oc)
    requires ClearOK(eval, s, oc) && Grows(s, s')
    ensures ClearOK(eval, s', oc)
  {
  }

  lemma ClearedGrows(eval: Eval, s: Bans, s': Bans)
    requires ClearedOK(eval, s) && Grows(s, s') && s'.ocs == s.ocs
    ensures ClearedOK(eval, s')
  {
    forall o | o in s'.ocs ensures ClearOK(eval, s', s'.ocs[o]) { ClearGrows(eval, s, s', s.ocs[o]); }
  }

  lemma GoneGrows(s: Bans, s': Bans)
    requires GoneOK(s) && s.hist <= s'.hist && s'.gone == s.gone
    ensures GoneOK(s')
  {
    forall k | k in s'.gone ensures k < |s'.hist| && (k == 0 || Superseded(s', k)) {
      if k != 0 {
        assert Superseded(s, k);
        var k' :| k < k' < |s.hist| && s.hist[k'] == s.hist[k];
        assert s'.hist[k'] == s'.hist[k];
      }
    }
  }

  lemma InsertKeeps(eval: Eval, s: Bans, spec: Spec, dups: bool)
    requires Inv(eval, s)
    ensures Inv(eval, Insert(s, spec, dups))
  {
    var s' := Insert(s, spec, dups);
    OcsGrow(s, s');
    ClearedGrows(eval, s, s');
    GoneGrows(s, s');
    InsertRefs(s, spec, dups);
  }

  lemma HuntsBounded(s: Bans)
    requires HuntsOK(s)
    ensures forall h :: h in s.hunts ==> h < |s.hist| && s.hunts[h].be < |s.hist|
  {
    forall h | h in s.hunts ensures h < |s.hist| && s.hunts[h].be < |s.hist| { assert HuntOK(s, h); }
  }

  lemma InsertEnds(s: Bans, spec: Spec, dups: bool, b: nat)
    requires Sized(s) && HuntsOK(s)
    ensures Ends(Insert(s, spec, dups), b) == if dups && b == s.tail then Ends(s, b) + {|s.hist|} else Ends(s, b)
    ensures |s.hist| !in Ends(s, b) && (b == |s.hist| ==> Ends(s, b) == {})
  {
    HuntsBounded(s);
  }

  lemma InsertRefs(s: Bans, spec: Spec, dups: bool)
    requires Sized(s) && RefsOK(s) && HuntsOK(s)
    ensures RefsOK(Insert(s, spec, dups))
  {
    var s' := Insert(s, spec, dups);
    forall b | 0 <= b < |s'.hist| ensures s'.refs[b] == |s'.objs[b]| + |Ends(s', b)| + s'.tails[b] {
      InsertEnds(s, spec, dups, b);
      hide Ends;
    }
  }

  lemma HuntKeeps(eval: Eval, s: Bans, h: nat)
    requires Inv(eval, s) && Enabled(s, DoHunt(h)) && Safe(s, DoHunt(h))
    ensures Inv(eval, HuntOn(s, h))
  {
    var s' := HuntOn(s, h);
    OcsGrow(s, s');
    ClearedGrows(eval, s, s');
    assert forall b :: Ends(s', b) == Ends(s, b);
    assert HuntOK(s, h);
    forall h' | h' in s'.hunts ensures HuntOK(s', h') { if h' != h { assert HuntOK(s, h'); } }
    HuntGone(s, h);
  }

  lemma HuntGone(s: Bans, h: nat)
    requires GoneOK(s) && h in s.hunts && HuntOK(s, h) && s.hunts[h].be < s.hunts[h].at
    ensures GoneOK(HuntOn(s, h))
  {
    var s' := HuntOn(s, h);
    forall k | k in s'.gone ensures k < |s'.hist| && (k == 0 || Superseded(s', k)) {
      if k in s.gone {
        assert k == 0 || Superseded(s, k);
      } else {
        assert s'.hist[h] == s'.hist[k];
      }
    }
  }

  lemma HuntEndKeeps(eval: Eval, s: Bans, h: nat)
    requires Inv(eval, s) && Safe(s, DoHuntEnd(h))
    ensures Inv(eval, HuntEnd(s, h))
  {
    var s' := HuntEnd(s, h);
    OcsGrow(s, s');
    ClearedGrows(eval, s, s');
    GoneGrows(s, s');
    forall h' | h' in s'.hunts ensures HuntOK(s', h') { assert HuntOK(s, h'); }
    forall b | 0 <= b < |s.hist| ensures s'.refs[b] == |s'.objs[b]| + |Ends(s', b)| + s'.tails[b] {
      assert Ends(s', b) == if b == s.hunts[h].be then Ends(s, b) - {h} else Ends(s, b);
    }
  }

  /** Reference counts when hunts and the list are as before. */
  lemma RefsFollow(s: Bans, s': Bans)
    requires Sized(s) && RefsOK(s) && Sized(s') && s'.hist == s.hist && s'.hunts == s.hunts && s'.tail == s.tail
    requires forall b :: 0 <= b < |s.hist| ==>
      s'.refs[b] + |s.objs[b]| + s.tails[b] == s.refs[b] + |s'.objs[b]| + s'.tails[b]
    requires forall b :: 0 <= b < s.tail ==> s'.refs[b] == s.refs[b]
    requires forall b :: b in s'.tails ==> b < |s.hist|
    ensures RefsOK(s')
  {
    assert forall b :: Ends(s', b) == Ends(s, b);
  }

  /** A step that touches the record of one object only. */
  lemma OtherOcs(s: Bans, s': Bans, o: nat)
    requires OcsOK(s) && Grows(s, s')
    requires forall p :: p in s'.ocs ==> p == o || (p in s.ocs && s'.ocs[p] == s.ocs[p])
    requires o in s'.ocs ==> OcOK(s', s'.ocs[o])
    ensures OcsOK(s')
  {
    forall p | p in s'.ocs ensures OcOK(s', s'.ocs[p]) {
      if p != o { OcGrows(s, s', s.ocs[p]); }
    }
  }

  lemma OtherCleared(eval: Eval, s: Bans, s': Bans, o: nat)
    requires ClearedOK(eval, s) && Grows(s, s')
    requires forall p :: p in s'.ocs ==> p == o || (p in s.ocs && s'.ocs[p] == s.ocs[p])
    requires o in s'.ocs ==> ClearOK(eval, s', s'.ocs[o])
    ensures ClearedOK(eval, s')
  {
    forall p | p in s'.ocs ensures ClearOK(eval, s', s'.ocs[p]) {
      if p != o { ClearGrows(eval, s, s', s.ocs[p]); }
    }
  }

  lemma NewObjKeeps(eval: Eval, s: Bans, o: nat, http: Http)
    requires Inv(eval, s) && o !in s.ocs
    ensures Inv(eval, NewObj(s, o, http))
  {
    var s' := NewObj(s, o, http);
    NewObjRefs(s, o, http);
    OtherOcs(s, s', o);
    hide RefsOK, ListsOK, OcsOK, OcOK, HuntsOK, GoneOK, Superseded, ClearedOK;
    OtherCleared(eval, s, s', o);
    KeptHunts(s, s');
  }

  lemma NewObjRefs(s: Bans, o: nat, http: Http)
    requires Sized(s) && RefsOK(s) && ListsOK(s) && o !in s.ocs
    ensures RefsOK(NewObj(s, o, http)) && ListsOK(NewObj(s, o, http))
  {
    hide Ends;
    RefsFollow(s, NewObj(s, o, http));
  }

  lemma LastKeeps(eval: Eval, s: Bans)
    requires Inv(eval, s)
    ensures Inv(eval, CheckLast(s))
  {
    hide GoneOK, HuntsOK, Superseded, OcOK, ClearOK;
    var s' := CheckLast(s);
    OcsGrow(s, s');
    ClearedGrows(eval, s, s');
    KeptHunts(s, s');
    assert forall b :: Ends(s', b) == Ends(s, b);
  }

  /** Taking an object off its list and dropping its record. */
  lemma DropKeeps(eval: Eval, s: Bans, o: nat)
    requires Inv(eval, s) && o in s.ocs && s.ocs[o].on.Some?
    ensures Held(s, s.ocs[o].on.value)
    ensures Inv(eval, TakeOff(s.(ocs := s.ocs - {o}), o, s.ocs[o].on.value))
  {
    ObjectHolds(s, o);
    var s' := TakeOff(s.(ocs := s.ocs - {o}), o, s.ocs[o].on.value);
    DropLists(s, o);
    OtherOcs(s, s', o);
    hide ListsOK, OcsOK, OcOK, HuntsOK, GoneOK, Superseded, ClearedOK;
    OtherCleared(eval, s, s', o);
    KeptHunts(s, s');
  }

  lemma DropLists(s: Bans, o: nat)
    requires Sized(s) && ListsOK(s) && RefsOK(s) && o in s.ocs && s.ocs[o].on.Some?
    requires Held(s, s.ocs[o].on.value)
    ensures var s' := TakeOff(s.(ocs := s.ocs - {o}), o, s.ocs[o].on.value); ListsOK(s') && RefsOK(s')
  {
    RefsFollow(s, TakeOff(s.(ocs := s.ocs - {o}), o, s.ocs[o].on.value));
    hide Ends;
  }

  lemma DestroyKeeps(eval: Eval, s: Bans, o: nat)
    requires Inv(eval, s) && Enabled(s, DoDestroy(o)) && Safe(s, DoDestroy(o))
    ensures Inv(eval, Destroy(s, o))
  {
    assert OcOK(s, s.ocs[o]);
    if s.ocs[o].ban.None? {
      ForgetKeeps(eval, s, o);
    } else {
      DropKeeps(eval, s, o);
      hide Inv;
      LastKeeps(eval, TakeOff(s.(ocs := s.ocs - {o}), o, s.ocs[o].on.value));
    }
  }

  /** An object on no list is just forgotten. */
  lemma ForgetKeeps(eval: Eval, s: Bans, o: nat)
    requires Inv(eval, s) && o in s.ocs && s.ocs[o].on.None?
    ensures Inv(eval, s.(ocs := s.ocs - {o}))
  {
    var s' := s.(ocs := s.ocs - {o});
    RefsFollow(s, s');
    OtherOcs(s, s', o);
    hide RefsOK, OcsOK, OcOK, HuntsOK, GoneOK, Superseded, ClearedOK;
    OtherCleared(eval, s, s', o);
    KeptHunts(s, s');
  }

  /** Steps of a check that change nothing but the record of the object. */
  lemma RecordKeeps(eval: Eval, s: Bans, o: nat, oc: Oc)
    requires Inv(eval, s) && o in s.ocs && oc.on == s.ocs[o].on && OcOK(s, oc) && ClearOK(eval, s, oc)
    ensures Inv(eval, s.(ocs := s.ocs[o := oc]))
  {
    var s' := s.(ocs := s.ocs[o := oc]);
    RefsFollow(s, s');
    hide RefsOK, ListsOK, OcsOK, OcOK, HuntsOK, GoneOK, Superseded, ClearedOK;
    OcGrows(s, s', oc);
    OtherOcs(s, s', o);
    RecordLists(s, o, oc);
    OtherCleared(eval, s, s', o);
    KeptHunts(s, s');
  }

  lemma RecordLists(s: Bans, o: nat, oc: Oc)
    requires Sized(s) && ListsOK(s) && o in s.ocs && oc.on == s.ocs[o].on
    ensures ListsOK(s.(ocs := s.ocs[o := oc]))
  {
  }

  lemma StartKeeps(eval: Eval, s: Bans, o: nat, req: Option<Http>)
    requires Inv(eval, s) && Enabled(s, DoStart(o, req))
    ensures Inv(eval, CheckStart(s, o, req))
  {
    assert OcOK(s, s.ocs[o]);
    RecordKeeps(eval, s, o, s.ocs[o].(check := Walk(Start(s), Start(s), 0, req)));
  }

  lemma VisitKeeps(eval: Eval, s: Bans, o: nat)
    requires Inv(eval, s) && ObjectOnly(eval) && Enabled(s, DoVisit(o)) && Safe(s, DoVisit(o))
    ensures Inv(eval, Visit(eval, s, o))
  {
    assert OcOK(s, s.ocs[o]) && ClearOK(eval, s, s.ocs[o]);
    VisitedOK(eval, s, o);
    VisitedClear(eval, s, o);
    hide Inv, OcOK, ClearOK;
    RecordKeeps(eval, s, o, Visit(eval, s, o).ocs[o]);
  }

  lemma VisitedOK(eval: Eval, s: Bans, o: nat)
    requires Enabled(s, DoVisit(o)) && Safe(s, DoVisit(o)) && OcOK(s, s.ocs[o])
    ensures OcOK(s, Visit(eval, s, o).ocs[o])
  {
  }

  lemma VisitedClear(eval: Eval, s: Bans, o: nat)
    requires Enabled(s, DoVisit(o)) && Safe(s, DoVisit(o)) && ObjectOnly(eval) && ClearOK(eval, s, s.ocs[o])
    ensures ClearOK(eval, s, Visit(eval, s, o).ocs[o])
  {
  }

  /** Moving an object to another list, or off all lists. */
  function Rehang(s: Bans, o: nat, to: Option<nat>, c: Check): Bans
    requires o in s.ocs && s.ocs[o].on.Some? && s.ocs[o].on.value < |s.refs| == |s.objs|
    requires s.refs[s.ocs[o].on.value] > 0 && (to.Some? ==> to.value < |s.refs|)
  {
    var s1 := TakeOff(s, o, s.ocs[o].on.value);
    var s2 := s1.(ocs := s1.ocs[o := s1.ocs[o].(check := c, on := to)]);
    if to.Some? then
      s2.(refs := s2.refs[to.value := s2.refs[to.value] + 1],
          objs := s2.objs[to.value := s2.objs[to.value] + {o}])
    else s2
  }

  lemma RehangLists(s: Bans, o: nat, to: Option<nat>, c: Check)
    requires Sized(s) && ListsOK(s) && o in s.ocs && s.ocs[o].on.Some? && s.ocs[o].on.value < |s.hist|
    requires s.refs[s.ocs[o].on.value] > 0 && (to.Some? ==> to.value < |s.hist|)
    ensures ListsOK(Rehang(s, o, to, c))
  {
  }

  lemma RehangRefs(s: Bans, o: nat, to: Option<nat>, c: Check)
    requires Sized(s) && RefsOK(s) && ListsOK(s) && o in s.ocs && s.ocs[o].on.Some?
    requires s.ocs[o].on.value < |s.hist| && s.refs[s.ocs[o].on.value] > 0 && (to.Some? ==> InList(s, to.value))
    ensures RefsOK(Rehang(s, o, to, c))
  {
    RefsFollow(s, Rehang(s, o, to, c));
  }

  lemma RehangKeeps(eval: Eval, s: Bans, o: nat, to: Option<nat>, c: Check)
    requires Inv(eval, s) && o in s.ocs && s.ocs[o].on.Some? && (to.Some? ==> InList(s, to.value))
    requires OcOK(s, s.ocs[o].(check := c, on := to)) && (c.Moved? || c.Condemned?)
    ensures Held(s, s.ocs[o].on.value) && Inv(eval, Rehang(s, o, to, c))
  {
    ObjectHolds(s, o);
    var s' := Rehang(s, o, to, c);
    RehangLists(s, o, to, c);
    RehangRefs(s, o, to, c);
    assert forall p :: p in s'.ocs && p != o ==> p in s.ocs && s'.ocs[p] == s.ocs[p];
    assert s'.ocs[o] == s.ocs[o].(check := c, on := to);
    hide RefsOK, ListsOK, OcsOK, OcOK, HuntsOK, GoneOK, Superseded, ClearedOK;
    OcGrows(s, s', s'.ocs[o]);
    OtherOcs(s, s', o);
    KeptClear(eval, s, s', o);
    OtherCleared(eval, s, s', o);
    KeptHunts(s, s');
  }

  lemma KeptClear(eval: Eval, s: Bans, s': Bans, o: nat)
    requires ClearedOK(eval, s) && s'.hist == s.hist && o in s.ocs && o in s'.ocs
    requires s'.ocs[o].cleared == s.ocs[o].cleared && s'.ocs[o].http == s.ocs[o].http
    requires !s'.ocs[o].check.Walk? && !s'.ocs[o].check.Hit?
    ensures ClearOK(eval, s', s'.ocs[o])
  {
    assert ClearOK(eval, s, s.ocs[o]);
  }

  lemma KeptHunts(s: Bans, s': Bans)
    requires HuntsOK(s) && GoneOK(s) && s'.hist == s.hist && s'.hunts == s.hunts && s'.gone == s.gone
    ensures HuntsOK(s') && GoneOK(s')
  {
    forall h | h in s'.hunts ensures HuntOK(s', h) { assert HuntOK(s, h); }
    GoneGrows(s, s');
  }

  /** Past the loop, every ban the check walked over is dealt with. */
  lemma SettleKeeps(eval: Eval, s: Bans, o: nat)
    requires Inv(eval, s) && Enabled(s, DoSettle(o)) && Safe(s, DoSettle(o))
    ensures Inv(eval, Settle(s, o))
  {
    assert OcOK(s, s.ocs[o]);
    if s.ocs[o].check.skipped > 0 {
      RecordKeeps(eval, s, o, s.ocs[o].(check := Idle));
    } else {
      var b0 := s.ocs[o].check.b0;
      RehangKeeps(eval, s, o, Some(b0), Moved(b0));
      SettleIsRehang(s, o);
    }
  }

  lemma SettleIsRehang(s: Bans, o: nat)
    requires Enabled(s, DoSettle(o)) && Safe(s, DoSettle(o)) && s.ocs[o].on == s.ocs[o].ban
    requires s.ocs[o].check.skipped == 0
    ensures Settle(s, o) == Rehang(s, o, Some(s.ocs[o].check.b0), Moved(s.ocs[o].check.b0))
  {
  }

  lemma CondemnKeeps(eval: Eval, s: Bans, o: nat)
    requires Inv(eval, s) && Enabled(s, DoCondemn(o)) && Safe(s, DoCondemn(o))
    ensures Inv(eval, Condemn(s, o))
  {
    assert OcOK(s, s.ocs[o]);
    RehangKeeps(eval, s, o, None, Condemned);
  }

  lemma WriteKeeps(eval: Eval, s: Bans, o: nat)
    requires Inv(eval, s) && Enabled(s, DoWrite(o))
    ensures Inv(eval, WriteBan(s, o))
  {
    assert OcOK(s, s.ocs[o]);
    RecordKeeps(eval, s, o, WriteBan(s, o).ocs[o]);
  }

  lemma TailRefKeeps(eval: Eval, s: Bans)
    requires Inv(eval, s)
    ensures Inv(eval, TailRef(s))
  {
    hide GoneOK, HuntsOK, Superseded, OcOK, ClearOK;
    OcsGrow(s, TailRef(s));
    RefsFollow(s, TailRef(s));
    ClearedGrows(eval, s, TailRef(s));
    KeptHunts(s, TailRef(s));
  }

  lemma TailDerefKeeps(eval: Eval, s: Bans, b: nat)
    requires Inv(eval, s) && Enabled(s, DoTailDeref(b)) && Safe(s, DoTailDeref(b))
    ensures Inv(eval, TailDeref(s, b))
  {
    hide GoneOK, HuntsOK, Superseded, OcOK, ClearOK;
    OcsGrow(s, TailDeref(s, b));
    RefsFollow(s, TailDeref(s, b));
    ClearedGrows(eval, s, TailDeref(s, b));
    KeptHunts(s, TailDeref(s, b));
  }

  lemma StepKeepsInv(eval: Eval, s: Bans, m: Move)
    requires ObjectOnly(eval) && Inv(eval, s) && Enabled(s, m) && Safe(s, m)
    ensures Inv(eval, Step(eval, s, m))
  {
    hide Inv, Insert, HuntOn, HuntEnd, NewObj, Destroy, CheckStart, Visit, Settle, Condemn, WriteBan,
      CheckLast, TailRef, TailDeref, ObjectOnly;
    match m
    case DoInsert(spec, dups) => InsertKeeps(eval, s, spec, dups);
    case DoHunt(h) => HuntKeeps(eval, s, h);
    case DoHuntEnd(h) => HuntEndKeeps(eval, s, h);
    case DoNewObj(o, http) => NewObjKeeps(eval, s, o, http);
    case DoDestroy(o) => DestroyKeeps(eval, s, o);
    case DoStart(o, req) => StartKeeps(eval, s, o, req);
    case DoVisit(o) => VisitKeeps(eval, s, o);
    case DoSettle(o) => SettleKeeps(eval, s, o);
    case DoCondemn(o) => CondemnKeeps(eval, s, o);
    case DoWrite(o) => WriteKeeps(eval, s, o);
    case DoRetire => LastKeeps(eval, s);
    case DoTailRef => TailRefKeeps(eval, s);
    case DoTailDeref(b) => TailDerefKeeps(eval, s, b);
  }
}
