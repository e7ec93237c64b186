/** Vary matching: specs of recorded header values, and the buffer in which a request's own values are kept
    from one candidate to the next. */
module Vary {
  import opened Vct
  import opened Wrappers
  import opened Seqs
  import opened HttpHeader

  /** A header and its value, if it was there. */
  datatype Entry = Entry(name: string, value: Option<string>)

  ghost predicate Fits(e: Entry) {
    |e.name| + 1 < 256 && (e.value.Some? ==> |e.value.value| < 0xffff)
  }

  function ValueLen(v: Option<string>): nat { if v.Some? then |v.value| else 0xffff }

  /** One entry of a vary matching string. */
  function Bytes(e: Entry): (s: string)
    requires Fits(e)
    ensures |s| == 2 + (|e.name| + 1) + 2 + (if e.value.Some? then |e.value.value| else 0)
  {
    var l := ValueLen(e.value);
    [(l / 256) as char, (l % 256) as char] + HdrSpec(e.name) + if e.value.Some? then e.value.value else []
  }

  const END: string := ['\U{ff}', '\U{ff}', '\0']

  ghost predicate AllFit(es: seq<Entry>) {
    forall i :: 0 <= i < |es| ==> Fits(es[i])
  }

  function AllBytes(es: seq<Entry>): string
    requires AllFit(es)
  {
    if es == [] then [] else AllBytes(es[..|es| - 1]) + Bytes(es[|es| - 1])
  }

  /** A whole vary matching string. */
  function Spec(es: seq<Entry>): string
    requires AllFit(es)
  {
    AllBytes(es) + END
  }

  // ---- the request ----

  /** What http_GetHdr finds, leading white space skipped. */
  type Request = string -> Option<string>

  /** Without trailing white space. */
  function Trim(s: string): (r: string)
    ensures |r| <= |s|
  {
    if s != [] && IsSp(s[|s| - 1]) then Trim(s[..|s| - 1]) else s
  }

  /** The request's own entry for a header. */
  function Own(req: Request, name: string): Entry {
    Entry(name, match req(name) case Some(v) => Some(Trim(v)) case None => None)
  }

  /** Every value the request has is shorter than the length that stands for absence. */
  ghost predicate ShortValues(req: Request) {
    forall name :: req(name).Some? ==> |Trim(req(name).value)| < 0xffff
  }

  function Lower(c: char): char { if 'A' <= c <= 'Z' then c + 32 as char else c }

  predicate SameIgnoringCase(a: string, b: string) {
    |a| == |b| && forall i :: 0 <= i < |a| ==> Lower(a[i]) == Lower(b[i])
  }

  predicate IsAcceptEncoding(name: string) { SameIgnoringCase(name, "Accept-Encoding") }

  /** What a match means for one entry. */
  predicate Agrees(gzip: bool, req: Request, e: Entry) {
    Own(req, e.name) == e || (gzip && IsAcceptEncoding(e.name))
  }

  // ---- bytes of entries ----

  /** Entries are told apart by their bytes alone: two that differ do so within both. */
  lemma EntriesDiffer(a: Entry, b: Entry)
    requires Fits(a) && Fits(b) && a != b
    ensures exists k :: 0 <= k < |Bytes(a)| && k < |Bytes(b)| && Bytes(a)[k] != Bytes(b)[k]
  {
    var s, t := Bytes(a), Bytes(b);
    var l, m := ValueLen(a.value), ValueLen(b.value);
    if l != m {
      assert s[0] == (l / 256) as char && s[1] == (l % 256) as char;
      assert t[0] == (m / 256) as char && t[1] == (m % 256) as char;
      assert s[0] != t[0] || s[1] != t[1];
    } else if |a.name| != |b.name| {
      assert s[2] != t[2];
    } else {
      assert |s| == |t|;
      if s == t { SameBytes(a, b); }
      assert s != t;
    }
  }

  lemma SameBytes(a: Entry, b: Entry)
    requires Fits(a) && Fits(b) && Bytes(a) == Bytes(b) && ValueLen(a.value) == ValueLen(b.value)
    requires |a.name| == |b.name|
    ensures a == b
  {
    var s, n := Bytes(a), |a.name|;
    assert s[3..3 + n] == a.name && Bytes(b)[3..3 + n] == b.name;
    if a.value.Some? {
      assert s[n + 5..] == a.value.value && Bytes(b)[n + 5..] == b.value.value;
    }
  }

  lemma AllBytesSnoc(es: seq<Entry>, e: Entry)
    requires AllFit(es) && Fits(e)
    ensures AllFit(es + [e]) && AllBytes(es + [e]) == AllBytes(es) + Bytes(e)
  {
    assert (es + [e])[..|es|] == es;
  }

  /** Where entry `j` lies among all of them. */
  lemma {:induction false} EntryAt(es: seq<Entry>, j: nat)
    requires AllFit(es) && j < |es|
    ensures AllFit(es[..j]) && AllFit(es[..j + 1])
    ensures var p := |AllBytes(es[..j])|;
      && |AllBytes(es[..j + 1])| == p + |Bytes(es[j])| <= |AllBytes(es)|
      && AllBytes(es)[p..p + |Bytes(es[j])|] == Bytes(es[j])
      && AllBytes(es)[..p] == AllBytes(es[..j])
  {
    hide Bytes, Fits;
    assert es[..j + 1][..j] == es[..j] && es[..j + 1][j] == es[j];
    if j == |es| - 1 {
      assert es[..j + 1] == es;
    } else {
      var init := es[..|es| - 1];
      EntryAt(init, j);
      assert init[..j] == es[..j] && init[..j + 1] == es[..j + 1] && init[j] == es[j];
      var p := |AllBytes(es[..j])|;
      assert AllBytes(es)[p..p + |Bytes(es[j])|] == AllBytes(init)[p..p + |Bytes(es[j])|];
      assert AllBytes(es)[..p] == AllBytes(init)[..p];
    }
  }

  // ---- what a match does to the buffer ----

  /** Parameters of a request: gzip support, its headers, and the size of the buffer. */
  datatype Ctx = Ctx(gzip: bool, req: Request, size: nat)

  /** Panic stands for the assertion that an entry and an end marker fit. */
  datatype Outcome = Panic | Done(all: bool, memo: seq<Entry>, oflo: bool)

  ghost predicate Memo(c: Ctx, memo: seq<Entry>) {
    && AllFit(memo) && |AllBytes(memo)| + 2 < c.size
    && forall i :: 0 <= i < |memo| ==> memo[i] == Own(c.req, memo[i].name)
  }

  lemma MemoPrefix(c: Ctx, memo: seq<Entry>, j: nat)
    requires Memo(c, memo) && j <= |memo|
    ensures Memo(c, memo[..j])
  {
    if j < |memo| { EntryAt(memo, j); } else { assert memo[..j] == memo; }
  }

  lemma OwnFits(c: Ctx, e: Entry)
    requires ShortValues(c.req) && Fits(e)
    ensures Fits(Own(c.req, e.name))
  {
  }

  function Agreed(o: Outcome, b: bool): Outcome {
    if o.Panic? then o else o.(all := o.all && b)
  }

  /** VRY_Match on entries: those in the buffer from `j` on are used as long as the headers are the same;
      else the request's entry is put there and the rest is dropped, starting over if it does not fit. */
  ghost function Walk(c: Ctx, es: seq<Entry>, memo: seq<Entry>, j: nat, oflo: bool): Outcome
    requires ShortValues(c.req) && AllFit(es) && Memo(c, memo) && j <= |memo|
    decreases |es|, 1
  {
    MemoPrefix(c, memo, j);
    if es == [] then Done(true, memo[..j], oflo)
    else if j < |memo| && memo[j].name == es[0].name then
      Agreed(Walk(c, es[1..], memo, j + 1, oflo), Agrees(c.gzip, c.req, es[0]))
    else
      OwnFits(c, es[0]);
      Rebuild(c, es, memo, j, oflo)
  }

  /** What stays in front of a new entry. */
  ghost function Kept(c: Ctx, memo: seq<Entry>, j: nat, own: Entry): (r: seq<Entry>)
    requires Memo(c, memo) && j <= |memo| && Fits(own)
    ensures AllFit(r) && forall i :: 0 <= i < |r| ==> r[i] == Own(c.req, r[i].name)
  {
    if AllFit(memo[..j]) && |AllBytes(memo[..j])| + |Bytes(own)| < c.size then memo[..j] else []
  }

  ghost function Rebuild(c: Ctx, es: seq<Entry>, memo: seq<Entry>, j: nat, oflo: bool): Outcome
    requires ShortValues(c.req) && AllFit(es) && Memo(c, memo) && j <= |memo| && es != []
    requires Fits(Own(c.req, es[0].name))
    decreases |es|, 0
  {
    var own := Own(c.req, es[0].name);
    var kept := Kept(c, memo, j, own);
    var full := |AllBytes(memo[..j])| + |Bytes(own)| >= c.size;
    if |AllBytes(kept)| + |Bytes(own)| + 2 >= c.size then Panic
    else
      AllBytesSnoc(kept, own);
      Agreed(Walk(c, es[1..], kept + [own], |kept| + 1, oflo || full), Agrees(c.gzip, c.req, es[0]))
  }

  /** The two ways one entry of the spec can go. */
  lemma WalkOn(c: Ctx, es: seq<Entry>, memo: seq<Entry>, j: nat, oflo: bool)
    requires ShortValues(c.req) && AllFit(es) && Memo(c, memo) && j <= |memo| && es != []
    ensures AllFit(memo[..j])
    ensures j < |memo| && memo[j].name == es[0].name ==>
      Walk(c, es, memo, j, oflo) == Agreed(Walk(c, es[1..], memo, j + 1, oflo), Agrees(c.gzip, c.req, es[0]))
    ensures !(j < |memo| && memo[j].name == es[0].name) ==>
      && Fits(Own(c.req, es[0].name))
      && var own := Own(c.req, es[0].name);
      var kept := Kept(c, memo, j, own);
      var full := |AllBytes(memo[..j])| + |Bytes(own)| >= c.size;
      if |AllBytes(kept)| + |Bytes(own)| + 2 >= c.size then Walk(c, es, memo, j, oflo) == Panic
      else
        && Memo(c, kept + [own])
        && Walk(c, es, memo, j, oflo) ==
           Agreed(Walk(c, es[1..], kept + [own], |kept| + 1, oflo || full), Agrees(c.gzip, c.req, es[0]))
  {
    OwnFits(c, es[0]);
    AllBytesSnoc(Kept(c, memo, j, Own(c.req, es[0].name)), Own(c.req, es[0].name));
    hide Bytes, Agrees, Kept;
  }

  // ---- what it comes to ----

  /** Whatever the buffer held from earlier candidates, and wherever it starts over: a match that comes to an
      end says yes exactly if every entry agrees with the request. */
  lemma {:induction false} MatchVerdict(c: Ctx, es: seq<Entry>, memo: seq<Entry>, j: nat, oflo: bool)
    requires ShortValues(c.req) && AllFit(es) && Memo(c, memo) && j <= |memo|
    ensures var r := Walk(c, es, memo, j, oflo);
      r.Done? ==>
        && Memo(c, r.memo)
        && (r.all <==> forall i :: 0 <= i < |es| ==> Agrees(c.gzip, c.req, es[i]))
    decreases |es|
  {
    MemoPrefix(c, memo, j);
    if es != [] {
      WalkOn(c, es, memo, j, oflo);
      AgreeAll(c, es);
      hide Bytes, Fits, Agrees, Walk, Memo, Kept;
      var own := Own(c.req, es[0].name);
      if j < |memo| && memo[j].name == es[0].name {
        MatchVerdict(c, es[1..], memo, j + 1, oflo);
      } else {
        var kept := Kept(c, memo, j, own);
        var full := |AllBytes(memo[..j])| + |Bytes(own)| >= c.size;
        if |AllBytes(kept)| + |Bytes(own)| + 2 < c.size {
          MatchVerdict(c, es[1..], kept + [own], |kept| + 1, oflo || full);
        }
      }
    }
  }

  lemma AgreeAll(c: Ctx, es: seq<Entry>)
    requires es != []
    ensures (forall i :: 0 <= i < |es| ==> Agrees(c.gzip, c.req, es[i]))
      <==> Agrees(c.gzip, c.req, es[0]) && (forall i :: 0 <= i < |es[1..]| ==> Agrees(c.gzip, c.req, es[1..][i]))
  {
    forall i | 1 <= i < |es| ensures es[i] == es[1..][i - 1] {}
  }

  /** Where an entry of `n` bytes goes when the buffer is filled up to `p`. */
  function StartOf(c: Ctx, p: nat, n: nat): nat { if p + n >= c.size then 0 else p }

  /** The request's own entries for the headers of a spec find room one after another from `p` on, starting
      over at the front where the room test of VRY_Match says so. What the buffer holds plays no part. */
  ghost predicate Packs(c: Ctx, es: seq<Entry>, p: nat)
    requires ShortValues(c.req) && AllFit(es)
  {
    es == [] ||
      (OwnFits(c, es[0]);
       var n := |Bytes(Own(c.req, es[0].name))|;
       var q := StartOf(c, p, n) + n;
       q + 2 < c.size && Packs(c, es[1..], q))
  }

  /** The assertion of VRY_Match on room holds all the way exactly if the request's own entries pack. */
  lemma {:induction false} WalkPacks(c: Ctx, es: seq<Entry>, memo: seq<Entry>, j: nat, oflo: bool)
    requires ShortValues(c.req) && AllFit(es) && Memo(c, memo) && j <= |memo|
    ensures AllFit(memo[..j]) && (Walk(c, es, memo, j, oflo).Done? <==> Packs(c, es, |AllBytes(memo[..j])|))
    decreases |es|
  {
    hide Bytes, Fits, Agrees, Walk, Memo, Own, AllBytes;
    if es != [] {
      var room, memo', j', oflo' := PackStep(c, es, memo, j, oflo);
      if room { WalkPacks(c, es[1..], memo', j', oflo'); }
    } else {
      NothingLeft(c, memo, j, oflo);
    }
  }

  lemma NothingLeft(c: Ctx, memo: seq<Entry>, j: nat, oflo: bool)
    requires ShortValues(c.req) && Memo(c, memo) && j <= |memo|
    ensures AllFit(memo[..j]) && Walk(c, [], memo, j, oflo).Done?
  {
    MemoPrefix(c, memo, j);
  }

  /** One entry, used again or built: the room it takes is the same. */
  lemma PackStep(c: Ctx, es: seq<Entry>, memo: seq<Entry>, j: nat, oflo: bool)
    returns (room: bool, memo': seq<Entry>, j': nat, oflo': bool)
    requires ShortValues(c.req) && AllFit(es) && Memo(c, memo) && j <= |memo| && es != []
    ensures AllFit(memo[..j]) && Fits(Own(c.req, es[0].name)) && AllFit(es[1..])
    ensures var p, n := |AllBytes(memo[..j])|, |Bytes(Own(c.req, es[0].name))|;
      && room == (StartOf(c, p, n) + n + 2 < c.size)
      && (!room ==> Walk(c, es, memo, j, oflo).Panic?)
      && (room ==> PacksOn(c, es, memo, j, oflo, memo', j', oflo', StartOf(c, p, n) + n))
  {
    OwnFits(c, es[0]);
    if j < |memo| && memo[j].name == es[0].name {
      ReusedRoom(c, memo, j);
      hide Bytes, Fits, Agrees, Walk, Memo, Own, AllBytes;
      WalkOn(c, es, memo, j, oflo);
      room, memo', j', oflo' := true, memo, j + 1, oflo;
    } else {
      room, memo', j', oflo' := BuildStep(c, es, memo, j, oflo);
    }
  }

  /** The walk goes on with the rest of the spec, behind `p` bytes of the buffer. */
  ghost predicate PacksOn(c: Ctx, es: seq<Entry>, memo: seq<Entry>, j: nat, oflo: bool,
                          memo': seq<Entry>, j': nat, oflo': bool, p: nat)
    requires ShortValues(c.req) && AllFit(es) && Memo(c, memo) && j <= |memo| && es != []
  {
    && Memo(c, memo') && j' <= |memo'| && AllFit(memo'[..j']) && |AllBytes(memo'[..j'])| == p
    && (Walk(c, es, memo, j, oflo).Done? <==> Walk(c, es[1..], memo', j', oflo').Done?)
  }

  lemma BuildStep(c: Ctx, es: seq<Entry>, memo: seq<Entry>, j: nat, oflo: bool)
    returns (room: bool, memo': seq<Entry>, j': nat, oflo': bool)
    requires ShortValues(c.req) && AllFit(es) && Memo(c, memo) && j <= |memo| && es != []
    requires !(j < |memo| && memo[j].name == es[0].name)
    ensures AllFit(memo[..j]) && Fits(Own(c.req, es[0].name))
    ensures var p, n := |AllBytes(memo[..j])|, |Bytes(Own(c.req, es[0].name))|;
      && room == (StartOf(c, p, n) + n + 2 < c.size)
      && (!room ==> Walk(c, es, memo, j, oflo).Panic?)
      && (room ==> PacksOn(c, es, memo, j, oflo, memo', j', oflo', StartOf(c, p, n) + n))
  {
    hide Bytes, Fits, Agrees, Walk, Memo, Own, AllBytes, Kept;
    WalkOn(c, es, memo, j, oflo);
    var own := Own(c.req, es[0].name);
    KeptRoom(c, memo, j, own);
    var kept := Kept(c, memo, j, own);
    var n := |Bytes(own)|;
    room := |AllBytes(kept)| + n + 2 < c.size;
    memo', j', oflo' := kept + [own], |kept| + 1, oflo || |AllBytes(memo[..j])| + n >= c.size;
    assert memo'[..j'] == memo';
    AllBytesSnoc(kept, own);
  }

  lemma KeptRoom(c: Ctx, memo: seq<Entry>, j: nat, own: Entry)
    requires Memo(c, memo) && j <= |memo| && Fits(own) && AllFit(memo[..j])
    ensures |AllBytes(Kept(c, memo, j, own))| == StartOf(c, |AllBytes(memo[..j])|, |Bytes(own)|)
  {
    hide Bytes, Fits, Own;
  }

  /** An entry that is used again takes the room it has. */
  lemma ReusedRoom(c: Ctx, memo: seq<Entry>, j: nat)
    requires Memo(c, memo) && j < |memo|
    ensures Fits(memo[j]) && memo[j] == Own(c.req, memo[j].name) && AllFit(memo[..j]) && AllFit(memo[..j + 1])
    ensures |AllBytes(memo[..j + 1])| == |AllBytes(memo[..j])| + |Bytes(memo[j])|
    ensures |AllBytes(memo[..j])| + |Bytes(memo[j])| + 2 < c.size
  {
    EntryAt(memo, j);
  }

  /** So whether a match comes to an end depends on the candidate and the request alone. */
  lemma MatchEnds(c: Ctx, es: seq<Entry>, memo: seq<Entry>)
    requires ShortValues(c.req) && AllFit(es) && Memo(c, memo)
    ensures Walk(c, es, memo, 0, false).Done? <==> Packs(c, es, 0)
  {
    assert memo[..0] == [] && AllBytes([]) == [];
    WalkPacks(c, es, memo, 0, false);
  }

  /** The request's own entries for the headers of a spec. */
  function Owns(req: Request, es: seq<Entry>): (r: seq<Entry>)
    ensures |r| == |es| && forall i :: 0 <= i < |r| ==> r[i] == Own(req, es[i].name)
  {
    if es == [] then [] else Owns(req, es[..|es| - 1]) + [Own(req, es[|es| - 1].name)]
  }

  lemma OwnsFit(c: Ctx, es: seq<Entry>)
    requires ShortValues(c.req) && AllFit(es)
    ensures AllFit(Owns(c.req, es))
  {
  }

  /** Where the whole spec of the request fits, nothing is dropped: the buffer ends up with exactly that
      spec, to be used for the object to come. */
  lemma {:induction false} MatchFits(c: Ctx, es: seq<Entry>, done: nat, memo: seq<Entry>)
    requires ShortValues(c.req) && AllFit(es) && AllFit(Owns(c.req, es)) && Memo(c, memo) && done <= |memo|
    requires done <= |es| && memo[..done] == Owns(c.req, es)[..done] && |Spec(Owns(c.req, es))| <= c.size
    ensures var r := Walk(c, es[done..], memo, done, false); r.Done? && !r.oflo && r.memo == Owns(c.req, es)
    decreases |es| - done
  {
    hide Bytes, Agrees, Spec, Fits, AllBytes, Own, Memo;
    var owns := Owns(c.req, es);
    if done < |es| {
      FitsNext(c, owns, done);
      RestFits(es, done);
      hide Walk, Owns;
      var memo' := FitsStep(c, es[done..], memo, done, owns[done]);
      MatchFits(c, es, done + 1, memo');
    } else {
      assert owns[..done] == owns;
    }
  }

  /** Without an overflow, the buffer ends up with what was used of it and the request's own entries. */
  lemma {:induction false} NothingDropped(c: Ctx, es: seq<Entry>, memo: seq<Entry>, j: nat, oflo: bool)
    requires ShortValues(c.req) && AllFit(es) && Memo(c, memo) && j <= |memo|
    ensures var r := Walk(c, es, memo, j, oflo);
      r.Done? ==> (oflo ==> r.oflo) && (!r.oflo ==> r.memo == memo[..j] + Owns(c.req, es))
    decreases |es|
  {
    hide Bytes, Fits, Agrees, Walk, Memo, Own, AllBytes, Owns;
    if es == [] {
      EndsWith(c, memo, j, oflo);
    } else {
      OwnsFirst(c.req, es);
      WalkOn(c, es, memo, j, oflo);
      var own := Own(c.req, es[0].name);
      if j < |memo| && memo[j].name == es[0].name {
        ReusedRoom(c, memo, j);
        assert memo[..j + 1] == memo[..j] + [own];
        Assoc(memo[..j], [own], Owns(c.req, es[1..]));
        NothingDropped(c, es[1..], memo, j + 1, oflo);
      } else {
        var kept := Kept(c, memo, j, own);
        var full := |AllBytes(memo[..j])| + |Bytes(own)| >= c.size;
        if |AllBytes(kept)| + |Bytes(own)| + 2 < c.size {
          assert (kept + [own])[..|kept| + 1] == kept + [own];
          Assoc(kept, [own], Owns(c.req, es[1..]));
          NothingDropped(c, es[1..], kept + [own], |kept| + 1, oflo || full);
        }
      }
    }
  }

  lemma EndsWith(c: Ctx, memo: seq<Entry>, j: nat, oflo: bool)
    requires ShortValues(c.req) && Memo(c, memo) && j <= |memo|
    ensures Walk(c, [], memo, j, oflo) == Done(true, memo[..j], oflo)
    ensures Owns(c.req, []) == [] && memo[..j] + [] == memo[..j]
  {
    MemoPrefix(c, memo, j);
  }

  lemma OwnsFirst(req: Request, es: seq<Entry>)
    requires es != []
    ensures Owns(req, es) == [Own(req, es[0].name)] + Owns(req, es[1..])
  {
    hide Owns, Own;
    forall i | 0 <= i < |es| ensures Owns(req, es)[i] == ([Own(req, es[0].name)] + Owns(req, es[1..]))[i] {
      if i > 0 { assert es[1..][i - 1] == es[i]; }
    }
  }

  /** A match comes to an end without an overflow exactly if the request's own spec fits the buffer as a
      whole, and then it leaves that spec. */
  lemma FitsExactly(c: Ctx, es: seq<Entry>, memo: seq<Entry>)
    requires ShortValues(c.req) && AllFit(es) && Memo(c, memo)
    ensures AllFit(Owns(c.req, es))
    ensures var r := Walk(c, es, memo, 0, false);
      && (r.Done? && !r.oflo <==> |Spec(Owns(c.req, es))| <= c.size)
      && (r.Done? && !r.oflo ==> r.memo == Owns(c.req, es))
  {
    OwnsFit(c, es);
    var owns := Owns(c.req, es);
    if |Spec(owns)| <= c.size {
      assert memo[..0] == owns[..0] && es[0..] == es;
      MatchFits(c, es, 0, memo);
    }
    NothingDropped(c, es, memo, 0, false);
    MatchVerdict(c, es, memo, 0, false);
    hide Bytes, Fits, Agrees, Walk, Own, Owns;
    assert memo[..0] + owns == owns;
  }

  /** One entry with room for it: the buffer goes on with the request's own, whether it was there or not. */
  lemma FitsStep(c: Ctx, rest: seq<Entry>, memo: seq<Entry>, done: nat, own: Entry) returns (memo': seq<Entry>)
    requires ShortValues(c.req) && AllFit(rest) && rest != [] && Memo(c, memo) && done <= |memo|
    requires own == Own(c.req, rest[0].name) && Fits(own) && AllFit(memo[..done])
    requires |AllBytes(memo[..done])| + |Bytes(own)| + 2 < c.size
    ensures Memo(c, memo') && done + 1 <= |memo'| && memo'[..done + 1] == memo[..done] + [own]
    ensures Walk(c, rest, memo, done, false).Done? <==> Walk(c, rest[1..], memo', done + 1, false).Done?
    ensures Walk(c, rest, memo, done, false).Done? ==>
      var r, r' := Walk(c, rest, memo, done, false), Walk(c, rest[1..], memo', done + 1, false);
      r.oflo == r'.oflo && r.memo == r'.memo
  {
    hide Bytes, Agrees, Walk, Fits, AllBytes;
    WalkOn(c, rest, memo, done, false);
    if done < |memo| && memo[done].name == rest[0].name {
      memo' := memo;
      assert memo[done] == own;
    } else {
      memo' := memo[..done] + [own];
      assert Kept(c, memo, done, own) == memo[..done];
    }
  }

  lemma RestFits(es: seq<Entry>, i: nat)
    requires AllFit(es) && i <= |es|
    ensures AllFit(es[i..])
    ensures i < |es| ==> es[i..][0] == es[i] && es[i..][1..] == es[i + 1..]
  {
  }

  lemma FitsNext(c: Ctx, owns: seq<Entry>, i: nat)
    requires AllFit(owns) && i < |owns| && |Spec(owns)| <= c.size
    ensures AllFit(owns[..i]) && |AllBytes(owns[..i])| + |Bytes(owns[i])| + 2 < c.size
    ensures Fits(owns[i]) && owns[..i + 1] == owns[..i] + [owns[i]]
  {
    EntryAt(owns, i);
    hide Bytes;
  }

  /** A spec recorded from a request matches that request, from whatever the buffer holds. */
  lemma OwnSpecMatches(c: Ctx, names: seq<Entry>, memo: seq<Entry>)
    requires ShortValues(c.req) && AllFit(names) && Memo(c, memo)
    ensures AllFit(Owns(c.req, names))
    ensures var r := Walk(c, Owns(c.req, names), memo, 0, false); r.Done? ==> r.all
  {
    OwnsFit(c, names);
    MatchVerdict(c, Owns(c.req, names), memo, 0, false);
  }

  /** The check for room comes two bytes short: an entry that fits by itself, but not with the end marker
      behind it, runs into the assertion instead of starting over. Two absent headers in fourteen bytes
      do; with the buffer to itself the second entry would have fitted. */
  lemma RoomCheckFallsShort(req: Request)
    requires ShortValues(req) && req("A").None? && req("B").None?
    ensures var c := Ctx(false, req, 14);
      var es := [Entry("A", None), Entry("B", None)];
      && AllFit(es) && Memo(c, []) && Walk(c, es, [], 0, false) == Panic
      && Walk(c, es[1..], [], 0, false).Done?
  {
    var c := Ctx(false, req, 14);
    var a, b := Entry("A", None), Entry("B", None);
    var es := [a, b];
    assert es[1..] == [b] && es[0] == a;
    Sizes(a, b);
    SecondPanics(c, a, b);
    SecondFits(c, b);
    FirstFits(c, es, a, b);
  }

  lemma FirstFits(c: Ctx, es: seq<Entry>, a: Entry, b: Entry)
    requires c.size == 14 && ShortValues(c.req) && a == Own(c.req, "A") && es == [a, b] && a.name == "A"
    requires Fits(a) && Fits(b) && |Bytes(a)| == 6 && AllFit([]) && AllBytes([]) == [] && Memo(c, [a])
    requires AllFit([b]) && Walk(c, [b], [a], 1, false) == Panic
    ensures AllFit(es) && Memo(c, []) && Walk(c, es, [], 0, false) == Panic
  {
    hide Bytes, Fits, AllBytes, Walk, Agrees, Own;
    var none: seq<Entry> := [];
    assert none[..0] == none && es[0] == a && es[1..] == [b];
    WalkOn(c, es, none, 0, false);
    assert Kept(c, none, 0, a) == none;
    assert none + [a] == [a];
  }

  lemma Sizes(a: Entry, b: Entry)
    requires a == Entry("A", None) && b == Entry("B", None)
    ensures Fits(a) && Fits(b) && |Bytes(a)| == 6 && |Bytes(b)| == 6
    ensures AllFit([]) && AllBytes([]) == [] && AllFit([a]) && |AllBytes([a])| == 6
  {
    AllBytesSnoc([], a);
    assert [] + [a] == [a];
  }

  lemma SecondPanics(c: Ctx, a: Entry, b: Entry)
    requires c.size == 14 && ShortValues(c.req) && c.req("A").None? && c.req("B").None?
    requires a == Entry("A", None) && b == Entry("B", None)
    ensures AllFit([b]) && Memo(c, [a]) && Walk(c, [b], [a], 1, false) == Panic
  {
    Sizes(a, b);
    WalkOn(c, [b], [a], 1, false);
    assert [a][..1] == [a];
  }

  lemma SecondFits(c: Ctx, b: Entry)
    requires c.size == 14 && ShortValues(c.req) && c.req("B").None? && b == Entry("B", None)
    ensures AllFit([b]) && Memo(c, []) && Walk(c, [b], [], 0, false).Done?
  {
    Sizes(Entry("A", None), b);
    WalkOn(c, [b], [], 0, false);
    var one := [b];
    assert |one[1..]| == 0;
  }
}
