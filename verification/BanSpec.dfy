/** The byte form of a ban: how tests are appended to it, picked apart again and evaluated. */
module BanSpec {
  import opened Wrappers
  import opened Endian
  import opened HttpHeader
  import opened BanThreads

  const BAN_OPER_EQ := 0x10 as char
  const BAN_OPER_NEQ := 0x11 as char
  const BAN_OPER_MATCH := 0x12 as char
  const BAN_OPER_NMATCH := 0x13 as char

  const BAN_ARG_URL := 0x18 as char
  const BAN_ARG_REQHTTP := 0x19 as char
  const BAN_ARG_OBJHTTP := 0x1a as char

  /** One test of a ban: the request URL, a request header or an object header against a text. */
  datatype Arg = Url | ReqHttp(name: string) | ObjHttp(name: string)

  datatype Oper = Eq | Neq | Match | NMatch

  /** `re` is the compiled form of the text; only the matching operators have one. */
  datatype Test = Test(arg: Arg, text: string, oper: Oper, re: string)

  /** What is outside: header and URL lookup, and regular expressions. */
  datatype World = World(
    url: Http -> Option<string>,
    hdr: (Http, string) -> Option<string>,
    compile: string -> Option<string>,
    exec: (string, string) -> bool)

  predicate IsMatch(op: Oper) { op.Match? || op.NMatch? }

  predicate OfRequest(a: Arg) { !a.ObjHttp? }

  // ---- what a test means ----

  function Value(w: World, a: Arg, o: Http, r: Http): Option<string> {
    match a
    case Url => w.url(r)
    case ReqHttp(name) => w.hdr(r, name)
    case ObjHttp(name) => w.hdr(o, name)
  }

  predicate Holds(w: World, t: Test, o: Http, r: Http) {
    var v := Value(w, t.arg, o, r);
    match t.oper
    case Eq => v == Some(t.text)
    case Neq => v != Some(t.text)
    case Match => v.Some? && w.exec(t.re, v.value)
    case NMatch => !(v.Some? && w.exec(t.re, v.value))
  }

  predicate AllHold(w: World, ts: seq<Test>, o: Http, r: Http) {
    forall i :: 0 <= i < |ts| ==> Holds(w, ts[i], o, r)
  }

  // ---- the bytes of a test ----

  function Lump(s: string): string { BigEndian(|s|, 4) + s }

  function ArgBytes(a: Arg): (s: string)
    requires NameFits(a)
    ensures s != []
  {
    match a
    case Url => [BAN_ARG_URL]
    case ReqHttp(name) => [BAN_ARG_REQHTTP] + HdrSpec(name)
    case ObjHttp(name) => [BAN_ARG_OBJHTTP] + HdrSpec(name)
  }

  function OperByte(op: Oper): char {
    match op
    case Eq => BAN_OPER_EQ
    case Neq => BAN_OPER_NEQ
    case Match => BAN_OPER_MATCH
    case NMatch => BAN_OPER_NMATCH
  }

  /** The length byte of a header name is at most 127. */
  predicate NameFits(a: Arg) {
    a.Url? || |a.name| + 1 <= 127
  }

  ghost predicate Fits(t: Test) {
    && NameFits(t.arg) && |t.text| + 1 < 0x1_0000_0000 && |t.re| < 0x1_0000_0000
    && '\0' !in t.text && (IsMatch(t.oper) || t.re == [])
  }

  function TestBytes(t: Test): (s: string)
    requires NameFits(t.arg)
    ensures s != []
  {
    ArgBytes(t.arg) + (Lump(t.text + ['\0']) + ([OperByte(t.oper)] + if IsMatch(t.oper) then Lump(t.re) else []))
  }

  ghost predicate AllFit(ts: seq<Test>) {
    forall i :: 0 <= i < |ts| ==> Fits(ts[i])
  }

  function AllBytes(ts: seq<Test>): string
    requires forall i :: 0 <= i < |ts| ==> NameFits(ts[i].arg)
  {
    if ts == [] then [] else TestBytes(ts[0]) + AllBytes(ts[1..])
  }

  lemma {:induction false} AllBytesSnoc(ts: seq<Test>, t: Test)
    requires AllFit(ts) && Fits(t)
    ensures AllFit(ts + [t]) && AllBytes(ts + [t]) == AllBytes(ts) + TestBytes(t)
  {
    hide TestBytes, Fits;
    if ts == [] {
      assert [t][1..] == [] && ts + [t] == [t];
    } else {
      assert (ts + [t])[1..] == ts[1..] + [t] && (ts + [t])[0] == ts[0];
      AllBytesSnoc(ts[1..], t);
    }
  }

  // ---- building a ban ----

  /** BAN_ARG and header name of a field; the first entry whose name is a prefix decides. */
  function ParseArg(a1: string): Option<Arg> {
    if "req.url" <= a1 then Some(Url)
    else if "req.http." <= a1 then Some(ReqHttp(a1[9..]))
    else if "obj.http." <= a1 then Some(ObjHttp(a1[9..]))
    else None
  }

  function ParseOper(a2: string): Option<Oper> {
    if a2 == "~" then Some(Match)
    else if a2 == "!~" then Some(NMatch)
    else if a2 == "==" then Some(Eq)
    else if a2 == "!=" then Some(Neq)
    else None
  }

  /** What a test is asked to be, if it can be had. */
  function ParseTest(w: World, a1: string, a2: string, a3: string): Option<Test> {
    var arg, op := ParseArg(a1), ParseOper(a2);
    if arg.None? || op.None? then None
    else if !IsMatch(op.value) then Some(Test(arg.value, a3, op.value, []))
    else if w.compile(a3).None? then None
    else Some(Test(arg.value, a3, op.value, w.compile(a3).value))
  }

  /** A ban being put together: its bytes so far and its request flag. */
  class BanBuilder {
    var vsb: string
    var req: bool
    ghost var tests: seq<Test>

    ghost predicate Valid() reads this {
      AllFit(tests) && vsb == AllBytes(tests) && (req <==> exists i :: 0 <= i < |tests| && OfRequest(tests[i].arg))
    }

    constructor ()
      ensures Valid() && tests == [] && vsb == [] && !req
    {
      vsb, req, tests := [], false, [];
    }

    /** BAN_AddTest. After a failure the ban is to be thrown away. */
    method AddTest(w: World, a1: string, a2: string, a3: string) returns (ok: bool)
      requires Valid() && '\0' !in a3 && |a3| + 1 < 0x1_0000_0000
      requires ParseArg(a1).Some? ==> NameFits(ParseArg(a1).value)
      requires w.compile(a3).Some? ==> |w.compile(a3).value| < 0x1_0000_0000
      modifies this
      ensures ok == ParseTest(w, a1, a2, a3).Some?
      ensures ok ==> Valid() && tests == old(tests) + [ParseTest(w, a1, a2, a3).value]
      ensures ok ==> vsb == old(vsb) + TestBytes(ParseTest(w, a1, a2, a3).value)
    {
      hide AllBytes, TestBytes, ArgBytes, Lump;
      var arg := ParseArg(a1);
      if arg.None? { return false; }
      if OfRequest(arg.value) { req := true; }
      ghost var was := vsb;
      vsb := vsb + ArgBytes(arg.value);
      vsb := vsb + Lump(a3 + ['\0']);
      var op, re := ParseOper(a2), [];
      if op.None? { return false; }
      vsb := vsb + [OperByte(op.value)];
      if IsMatch(op.value) {
        var c := w.compile(a3);
        if c.None? { return false; }
        re := c.value;
        vsb := vsb + Lump(re);
      }
      var t := Test(arg.value, a3, op.value, re);
      Appended(was, t);
      AllBytesSnoc(tests, t);
      SnocRequest(tests, t);
      tests := tests + [t];
      ok := true;
    }

    /** The spec that BAN_Insert makes: time, length, request flag, tests. */
    method Spec(time: string) returns (spec: string)
      requires Valid() && |time| == 8 && 13 + |vsb| < 0x1_0000_0000
      ensures spec == time + Body(tests) && IsReq(Body(tests)) == req
    {
      hide AllBytes;
      spec := time + (BigEndian(|vsb| + 13, 4) + ([if req then 1 as char else 0 as char] + vsb));
    }
  }

  lemma Appended(was: string, t: Test)
    requires NameFits(t.arg)
    ensures was + TestBytes(t) ==
      was + ArgBytes(t.arg) + Lump(t.text + ['\0']) + [OperByte(t.oper)] + if IsMatch(t.oper) then Lump(t.re) else []
  {
  }

  lemma SnocRequest(ts: seq<Test>, t: Test)
    ensures (exists i :: 0 <= i < |ts + [t]| && OfRequest((ts + [t])[i].arg))
      <==> (exists i :: 0 <= i < |ts| && OfRequest(ts[i].arg)) || OfRequest(t.arg)
  {
    assert (ts + [t])[|ts|] == t;
    if i :| 0 <= i < |ts| && OfRequest(ts[i].arg) { assert (ts + [t])[i] == ts[i]; }
  }

  /** A spec from offset 8 on. */
  function Body(ts: seq<Test>): Spec
    requires forall i :: 0 <= i < |ts| ==> NameFits(ts[i].arg)
  {
    var bytes := AllBytes(ts);
    BigEndian(|bytes| + 13, 4)
    + ([if exists i :: 0 <= i < |ts| && OfRequest(ts[i].arg) then 1 as char else 0 as char] + bytes)
  }

  // ---- picking a ban apart ----

  /** ban_get_lump. */
  method GetLump(bs: string, p: nat, ghost lump: string, ghost rest: string) returns (r: string, next: nat)
    requires p <= |bs| && bs[p..] == Lump(lump) + rest && |lump| < 0x1_0000_0000
    ensures r == lump && p < next <= |bs| && bs[next..] == rest
  {
    assert Lump(lump) + rest == BigEndian(|lump|, 4) + (lump + rest);
    Front(bs, p, BigEndian(|lump|, 4), lump + rest);
    Front(bs, p + 4, lump, rest);
    Powers();
    NumberOfBigEndian(|lump|, 4);
    var ln := Number(bs[p..p + 4]);
    r, next := bs[p + 4..p + 4 + ln], p + 4 + ln;
  }

  /** The first half of ban_iter: the variable. */
  method GetArg(bs: string, p: nat, ghost a: Arg, ghost rest: string) returns (r: Arg, next: nat)
    requires p <= |bs| && NameFits(a) && bs[p..] == ArgBytes(a) + rest
    ensures r == a && p < next <= |bs| && bs[next..] == rest
  {
    Front(bs, p, ArgBytes(a), rest);
    if bs[p] == BAN_ARG_REQHTTP || bs[p] == BAN_ARG_OBJHTTP {
      assert ArgBytes(a) + rest == [bs[p]] + (HdrSpec(a.name) + rest);
      Front(bs, p, [bs[p]], HdrSpec(a.name) + rest);
      Front(bs, p + 1, HdrSpec(a.name), rest);
      next := p + 1 + bs[p + 1] as nat + 2;
      var name := bs[p + 2..p + 1 + bs[p + 1] as nat];
      NameOf(bs, p + 1, a.name);
      r := if bs[p] == BAN_ARG_REQHTTP then ReqHttp(name) else ObjHttp(name);
    } else {
      r, next := Url, p + 1;
    }
  }

  lemma NameOf(bs: string, p: nat, name: string)
    requires p + |name| + 3 <= |bs| && |name| + 1 <= 127 && bs[p..p + |name| + 3] == HdrSpec(name)
    ensures bs[p] as nat == |name| + 1 && bs[p + 1..p + 1 + |name|] == name
  {
    var h := HdrSpec(name);
    assert bs[p] == bs[p..p + |name| + 3][0] == h[0];
    assert h[1..] == name + [':', '\0'];
    assert h[1..1 + |name|] == h[1..][..|name|] == name;
    assert bs[p + 1..p + 1 + |name|] == bs[p..p + |name| + 3][1..1 + |name|];
  }

  /** ban_iter: one test read back from the bytes. */
  method Iter(bs: string, p: nat, ghost t: Test, ghost rest: string) returns (bt: Test, next: nat)
    requires p <= |bs| && Fits(t) && bs[p..] == TestBytes(t) + rest
    ensures bt == t && p < next <= |bs| && bs[next..] == rest
  {
    ghost var tail := if IsMatch(t.oper) then Lump(t.re) else [];
    TestParts(t, rest);
    var arg, q := GetArg(bs, p, t.arg, Lump(t.text + ['\0']) + ([OperByte(t.oper)] + (tail + rest)));
    var arg2, q2 := GetLump(bs, q, t.text + ['\0'], [OperByte(t.oper)] + (tail + rest));
    Front(bs, q2, [OperByte(t.oper)], tail + rest);
    var oper, re := bs[q2], [];
    next := q2 + 1;
    if oper == BAN_OPER_MATCH || oper == BAN_OPER_NMATCH {
      re, next := GetLump(bs, next, t.re, rest);
    } else {
      assert tail + rest == rest;
    }
    var text := arg2[..|arg2| - 1];
    bt := Test(arg, text,
               if oper == BAN_OPER_MATCH then Match else if oper == BAN_OPER_NMATCH then NMatch
               else if oper == BAN_OPER_EQ then Eq else Neq,
               re);
  }

  lemma TestParts(t: Test, rest: string)
    requires NameFits(t.arg)
    ensures var tail := if IsMatch(t.oper) then Lump(t.re) else [];
      TestBytes(t) + rest ==
      ArgBytes(t.arg) + (Lump(t.text + ['\0']) + ([OperByte(t.oper)] + (tail + rest)))
  {
  }

  /** ban_evaluate on the bytes of a ban: it reads exactly the tests put in, in order, up to the first
      that fails, stops exactly at the recorded length, and matches when all hold. */
  method Evaluate(w: World, bs: string, o: Http, r: Http, ghost ts: seq<Test>, ghost time: string)
    returns (m: bool, tests: nat)
    requires AllFit(ts) && |time| == 8 && bs == time + Body(ts) && |bs| < 0x1_0000_0000
    ensures m <==> AllHold(w, ts, o, r)
    ensures tests <= |ts| && (m ==> tests == |ts|)
    ensures !m ==> 0 < tests && !Holds(w, ts[tests - 1], o, r)
    ensures !m ==> forall i :: 0 <= i < tests - 1 ==> Holds(w, ts[i], o, r)
  {
    HeaderOf(bs, ts, time);
    hide AllBytes, TestBytes, Body, Fits, Holds;
    var be := Number(bs[8..12]);
    var p := 13;
    m, tests := true, 0;
    assert ts[0..] == ts;
    while p < be
      invariant 13 <= p <= be == |bs| && tests <= |ts| && bs[p..] == AllBytes(ts[tests..])
      invariant forall i :: 0 <= i < tests ==> Holds(w, ts[i], o, r)
      decreases be - p
    {
      NextTest(ts, tests, bs, p);
      var bt;
      bt, p := Iter(bs, p, ts[tests], AllBytes(ts[tests + 1..]));
      tests := tests + 1;
      if !Passes(w, bt, o, r) {
        return false, tests;
      }
    }
    NoBytesNoTests(ts, tests);
  }

  lemma NextTest(ts: seq<Test>, k: nat, bs: string, p: nat)
    requires AllFit(ts) && k <= |ts| && p < |bs| && bs[p..] == AllBytes(ts[k..])
    ensures k < |ts| && bs[p..] == TestBytes(ts[k]) + AllBytes(ts[k + 1..])
  {
    if k < |ts| { assert ts[k..][0] == ts[k] && ts[k..][1..] == ts[k + 1..]; }
  }

  lemma NoBytesNoTests(ts: seq<Test>, k: nat)
    requires AllFit(ts) && k <= |ts| && AllBytes(ts[k..]) == []
    ensures k == |ts|
  {
  }

  lemma HeaderOf(bs: string, ts: seq<Test>, time: string)
    requires AllFit(ts) && |time| == 8 && bs == time + Body(ts) && |bs| < 0x1_0000_0000
    ensures |bs| >= 13 && Number(bs[8..12]) == |bs| && bs[13..] == AllBytes(ts)
  {
    var bytes := AllBytes(ts);
    assert bs[8..12] == BigEndian(|bytes| + 13, 4);
    assert bs[13..] == bytes;
    Powers();
    NumberOfBigEndian(|bytes| + 13, 4);
  }

  /** The two switches of ban_evaluate. */
  predicate Passes(w: World, bt: Test, o: Http, r: Http)
    ensures Passes(w, bt, o, r) == Holds(w, bt, o, r)
  {
    var arg1 := Value(w, bt.arg, o, r);
    if bt.oper.Eq? then !(arg1.None? || arg1.value != bt.text)
    else if bt.oper.Neq? then !(arg1.Some? && arg1.value == bt.text)
    else if bt.oper.Match? then !(arg1.None? || !w.exec(bt.re, arg1.value))
    else !(arg1.Some? && w.exec(bt.re, arg1.value))
  }

  // ---- what the threads rely on ----

  /** The verdict of bans built by BAN_AddTest, on their bytes from offset 8. */
  ghost predicate Built(w: World, spec: Spec, o: Http, r: Http) {
    exists ts :: AllFit(ts) && Body(ts) == spec && AllHold(w, ts, o, r)
  }

  /** A ban built without the request flag never looks at the request. */
  lemma BuiltBansAreObjectOnly(w: World)
    ensures ObjectOnly((spec, o, r) => Built(w, spec, o, r))
  {
    hide Body, Holds, IsReq;
    forall spec, o, r, r' | !IsReq(spec) && Built(w, spec, o, r) ensures Built(w, spec, o, r') {
      var ts :| AllFit(ts) && Body(ts) == spec && AllHold(w, ts, o, r);
      FlagTells(ts);
      forall i | 0 <= i < |ts| ensures Holds(w, ts[i], o, r') { SameValue(w, ts[i], o, r, r'); }
    }
  }

  lemma SameValue(w: World, t: Test, o: Http, r: Http, r': Http)
    requires !OfRequest(t.arg)
    ensures Holds(w, t, o, r) == Holds(w, t, o, r')
  {
  }

  lemma FlagTells(ts: seq<Test>)
    requires AllFit(ts) && !IsReq(Body(ts))
    ensures forall i :: 0 <= i < |ts| ==> !OfRequest(ts[i].arg)
  {
  }
}
