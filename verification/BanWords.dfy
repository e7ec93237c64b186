/** Bans as they are asked for: the words of the command, what they mean, and that the bytes made of them are
    evaluated to that. */
module BanWords {
  import opened Wrappers
  import opened BanThreads
  import opened BanSpec

  // ---- what is asked for ----

  /** What can be tested. */
  datatype Field = ReqUrl | ReqHeader(name: string) | ObjHeader(name: string)

  /** One comparison of a ban command: field, operator and text. */
  datatype Cond = Cond(field: Field, op: string, text: string)

  function FieldName(f: Field): string {
    match f
    case ReqUrl => "req.url"
    case ReqHeader(name) => "req.http." + name
    case ObjHeader(name) => "obj.http." + name
  }

  function FieldValue(w: World, f: Field, o: Http, r: Http): Option<string> {
    match f
    case ReqUrl => w.url(r)
    case ReqHeader(name) => w.hdr(r, name)
    case ObjHeader(name) => w.hdr(o, name)
  }

  predicate Matches(w: World, v: Option<string>, re: string) {
    v.Some? && w.compile(re).Some? && w.exec(w.compile(re).value, v.value)
  }

  /** Whether a comparison holds. What is not there is different from every text and matches nothing. */
  predicate Compares(w: World, c: Cond, o: Http, r: Http) {
    var v := FieldValue(w, c.field, o, r);
    || (c.op == "==" && v == Some(c.text))
    || (c.op == "!=" && v != Some(c.text))
    || (c.op == "~" && Matches(w, v, c.text))
    || (c.op == "!~" && !Matches(w, v, c.text))
  }

  /** A comparison that can be had. */
  predicate Possible(w: World, c: Cond) {
    c.op == "==" || c.op == "!=" || ((c.op == "~" || c.op == "!~") && w.compile(c.text).Some?)
  }

  /** A comparison is accepted exactly if there is such an operator and, for a match, the expression can be
      compiled; and the test made of it holds exactly if the comparison does. */
  lemma WordsMean(w: World, c: Cond)
    ensures var t := ParseTest(w, FieldName(c.field), c.op, c.text);
      && (t.Some? <==> Possible(w, c))
      && (t.Some? ==> forall o, r :: Holds(w, t.value, o, r) <==> Compares(w, c, o, r))
      && (t.Some? ==> t.value.text == c.text && (OfRequest(t.value.arg) <==> !c.field.ObjHeader?))
  {
    var a := FieldName(c.field);
    match c.field
    case ReqUrl => assert ParseArg(a) == Some(Url);
    case ReqHeader(name) =>
      assert a[3..] == ".http." + name && a[4] != "req.url"[4] && a[9..] == name;
      assert ParseArg(a) == Some(ReqHttp(name));
    case ObjHeader(name) =>
      assert a[0] != "req.url"[0] && a[0] != "req.http."[0] && a[9..] == name;
      assert ParseArg(a) == Some(ObjHttp(name));
  }

  /** Only the beginning of a field is looked at: what follows req.url is ignored. */
  lemma UrlByPrefix(more: string)
    ensures ParseArg("req.url" + more) == Some(Url)
  {
  }

  // ---- the command ----

  /** Words in threes with "&&" between. */
  predicate WellFormed(av: seq<string>) {
    |av| % 4 == 3 && forall i :: 0 <= i < |av| && i % 4 == 3 ==> av[i] == "&&"
  }

  function Count(av: seq<string>): nat { (|av| + 1) / 4 }

  /** The tests that words ask for. */
  ghost predicate Asked(w: World, av: seq<string>, ts: seq<Test>) {
    && |ts| <= Count(av)
    && forall i {:trigger ts[i]} :: 0 <= i < |ts| && 4 * i + 2 < |av| ==>
      ParseTest(w, av[4 * i], av[4 * i + 1], av[4 * i + 2]) == Some(ts[i])
  }

  /** Names, texts and compiled expressions are as long as their lengths can say. */
  ghost predicate Storable(w: World, av: seq<string>) {
    && (forall i :: 0 <= i < |av| ==> '\0' !in av[i] && |av[i]| + 1 < 0x1_0000_0000)
    && (forall i :: 0 <= i < |av| && ParseArg(av[i]).Some? ==> NameFits(ParseArg(av[i]).value))
    && (forall i :: 0 <= i < |av| && w.compile(av[i]).Some? ==> |w.compile(av[i]).value| < 0x1_0000_0000)
    && (forall ts :: Asked(w, av, ts) && AllFit(ts) ==> 13 + |AllBytes(ts)| < 0x1_0000_0000)
  }

  /** ccf_ban: nothing is inserted if the number of words is wrong, something else stands where "&&" should, or a
      test is refused. */
  method Ban(w: World, av: seq<string>, time: string) returns (spec: Option<string>, ghost ts: seq<Test>)
    requires Storable(w, av) && |time| == 8
    ensures spec.Some? ==>
      && WellFormed(av) && |ts| == Count(av) && Asked(w, av, ts) && AllFit(ts)
      && spec.value == time + Body(ts) && |spec.value| < 0x1_0000_0000
    ensures spec.None? ==>
      !(WellFormed(av)
        && forall i :: 0 <= i < Count(av) ==> ParseTest(w, av[4 * i], av[4 * i + 1], av[4 * i + 2]).Some?)
  {
    hide AllFit, AllBytes, Body, ParseTest, ParseArg, TestBytes;
    ts := [];
    if |av| % 4 != 3 { return None, []; }
    var i := 3;
    while i < |av|
      invariant 3 <= i <= |av| && i % 4 == 3
      invariant forall k :: 0 <= k < i && k % 4 == 3 ==> av[k] == "&&"
      decreases |av| - i
    {
      if av[i] != "&&" { return None, []; }
      i := i + 4;
    }
    var b := new BanBuilder();
    ghost var n := 0;
    i := 0;
    while i < |av|
      invariant i == 4 * n <= |av| + 1 && n <= Count(av) && b.Valid() && fresh(b)
      invariant |b.tests| == n && Asked(w, av, b.tests)
      decreases |av| + 1 - i
    {
      var ok := b.AddTest(w, av[i], av[i + 1], av[i + 2]);
      if !ok {
        assert ParseTest(w, av[4 * n], av[4 * n + 1], av[4 * n + 2]).None?;
        return None, [];
      }
      n := n + 1;
      i := i + 4;
    }
    ts := b.tests;
    BuilderFits(b);
    var s := b.Spec(time);
    SpecSize(ts);
    spec := Some(s);
  }

  lemma BuilderFits(b: BanBuilder)
    requires b.Valid()
    ensures AllFit(b.tests) && b.vsb == AllBytes(b.tests)
  {
  }

  lemma SpecSize(ts: seq<Test>)
    requires AllFit(ts)
    ensures |Body(ts)| == 5 + |AllBytes(ts)|
  {
  }

  // ---- commands and what they do ----

  /** The words of a command. */
  function Words(cs: seq<Cond>): seq<string> {
    if cs == [] then []
    else
      var three := [FieldName(cs[0].field), cs[0].op, cs[0].text];
      if |cs| == 1 then three else three + (["&&"] + Words(cs[1..]))
  }

  lemma {:induction false} WordsAt(cs: seq<Cond>)
    requires cs != []
    ensures |Words(cs)| == 4 * |cs| - 1 && WellFormed(Words(cs))
    ensures forall i :: 0 <= i < |cs| ==>
      && Words(cs)[4 * i] == FieldName(cs[i].field) && Words(cs)[4 * i + 1] == cs[i].op
      && Words(cs)[4 * i + 2] == cs[i].text
  {
    if |cs| > 1 {
      var ws, rest := Words(cs), Words(cs[1..]);
      WordsAt(cs[1..]);
      forall i | 4 <= i < |ws| ensures ws[i] == rest[i - 4] {}
      forall i | 0 <= i < |cs|
        ensures ws[4 * i] == FieldName(cs[i].field) && ws[4 * i + 1] == cs[i].op && ws[4 * i + 2] == cs[i].text
      {
        if i > 0 { assert cs[i] == cs[1..][i - 1] && 4 * i - 4 == 4 * (i - 1); }
      }
    }
  }

  /** A ban asked for by a command, put into bytes and evaluated: it is refused exactly if some comparison cannot be
      had, and else strikes an object exactly if all comparisons hold. */
  method BanThenEvaluate(w: World, cs: seq<Cond>, time: string, o: Http, r: Http) returns (ok: bool, m: bool)
    requires cs != [] && |time| == 8 && Storable(w, Words(cs))
    ensures ok <==> forall i :: 0 <= i < |cs| ==> Possible(w, cs[i])
    ensures ok ==> (m <==> forall i :: 0 <= i < |cs| ==> Compares(w, cs[i], o, r))
  {
    hide AllFit, Body, ParseTest, Words, Possible, Compares, Holds, Storable;
    WordsAt(cs);
    var av := Words(cs);
    var spec, ts := Ban(w, av, time);
    forall i | 0 <= i < |cs| { WordsMean(w, cs[i]); }
    ok, m := spec.Some?, false;
    if ok {
      var tests;
      m, tests := Evaluate(w, spec.value, o, r, ts, time);
      forall i | 0 <= i < |cs|
        ensures Possible(w, cs[i]) && (Holds(w, ts[i], o, r) <==> Compares(w, cs[i], o, r))
      {
        assert ParseTest(w, av[4 * i], av[4 * i + 1], av[4 * i + 2]) == Some(ts[i]);
      }
    } else {
      var i :| 0 <= i < Count(av) && ParseTest(w, av[4 * i], av[4 * i + 1], av[4 * i + 2]).None?;
      assert !Possible(w, cs[i]);
    }
  }
}
