/** VRY_Match, VRY_Create and VRY_Validate as they run on bytes. */
module VaryMatch {
  import opened Vct
  import opened Wrappers
  import opened HttpHeader
  import opened Vary

  /** vbe16dec and vry_len on a buffer. */
  function EntryLen(s: string, p: nat): nat
    requires p + 2 < |s|
  {
    var l := (s[p] as nat) * 256 + s[p + 1] as nat;
    2 + s[p + 2] as nat + 2 + if l == 0xffff then 0 else l
  }

  lemma LenOfEntry(s: string, p: nat, e: Entry)
    requires Fits(e) && p + |Bytes(e)| <= |s| && s[p..p + |Bytes(e)|] == Bytes(e)
    ensures p + 2 < |s| && EntryLen(s, p) == |Bytes(e)| && s[p + 2] as nat == |e.name| + 1
  {
    var b, l := Bytes(e), ValueLen(e.value);
    assert s[p] == s[p..p + |b|][0] && s[p + 1] == s[p..p + |b|][1] && s[p + 2] == s[p..p + |b|][2];
    assert b[0] == (l / 256) as char && b[1] == (l % 256) as char;
  }

  /** How two entries compare; None is the end marker of the buffer. */
  function Compare(gzip: bool, e: Entry, m: Option<Entry>): nat {
    if m == Some(e) then 0
    else if m.None? || m.value.name != e.name then 1
    else if gzip && IsAcceptEncoding(e.name) then 0
    else 2
  }

  /** http_GetHdr and trimming: the request's own value for a header. */
  method GetOwn(req: Request, name: string) returns (value: Option<string>)
    ensures value == Own(req, name).value
  {
    var h := req(name);
    if h.None? { return None; }
    var e := |h.value|;
    assert h.value[..e] == h.value;
    while e > 0 && IsSp(h.value[e - 1])
      invariant e <= |h.value| && Trim(h.value) == Trim(h.value[..e])
    {
      assert h.value[..e][..e - 1] == h.value[..e - 1];
      e := e - 1;
    }
    value := Some(h.value[..e]);
  }

  class VaryBuf {
    const gzip: bool
    const req: Request
    var vary_b: array<char>
    /** How much of the buffer is a spec to keep, if it did not overflow. */
    var vary_l: Option<nat>
    ghost var memo: seq<Entry>

    ghost function C(): Ctx reads this { Ctx(gzip, req, vary_b.Length) }

    /** Entry `j` of the buffer, or the end marker behind the last. */
    ghost predicate Holds(vsp: nat, m: Option<Entry>) reads this, vary_b {
      match m
      case Some(e) => Fits(e) && vsp + |Bytes(e)| <= vary_b.Length && vary_b[vsp..vsp + |Bytes(e)|] == Bytes(e)
      case None => vsp + 2 < vary_b.Length && vary_b[vsp + 2] == '\0'
    }

    ghost predicate Valid() reads this, vary_b {
      && ShortValues(req) && Memo(C(), memo)
      && vary_b[..|AllBytes(memo)|] == AllBytes(memo)
      && vary_b[|AllBytes(memo)| + 2] == '\0'
    }

    ghost function Nth(j: nat): Option<Entry> reads this {
      if j < |memo| then Some(memo[j]) else None
    }

    constructor (gzip: bool, req: Request, size: nat)
      requires size > 2 && ShortValues(req)
      ensures Valid() && memo == [] && this.gzip == gzip && this.req == req && vary_b.Length == size && fresh(vary_b)
    {
      this.gzip, this.req := gzip, req;
      vary_b := new char[size](_ => '\0');
      vary_l, memo := None, [];
    }

    lemma NthHolds(j: nat)
      requires Valid() && j <= |memo|
      ensures AllFit(memo[..j]) && Holds(|AllBytes(memo[..j])|, Nth(j))
      ensures j < |memo| ==>
        && AllFit(memo[..j + 1])
        && |AllBytes(memo[..j + 1])| == |AllBytes(memo[..j])| + |Bytes(memo[j])|
    {
      if j < |memo| {
        EntryAt(memo, j);
        var p, b := |AllBytes(memo[..j])|, Bytes(memo[j]);
        assert vary_b[p..p + |b|] == vary_b[..|AllBytes(memo)|][p..p + |b|];
      } else {
        assert memo[..j] == memo;
      }
    }

    /** memcmp of `n` bytes of the spec against the buffer; a difference comes before the buffer ends. */
    method Memcmp(vary: string, p: nat, vsp: nat, n: nat) returns (same: bool)
      requires p + n <= |vary| && vsp <= vary_b.Length && Decided(vary[p..p + n], vary_b[vsp..])
      ensures same <==> vary[p..p + n] <= vary_b[vsp..]
    {
      ghost var w, b := vary[p..p + n], vary_b[vsp..];
      var k := 0;
      while k < n
        invariant k <= n && k <= |b| && w[..k] == b[..k]
      {
        assert w[k] == vary[p + k];
        DecidedAt(w, b, k);
        if vary[p + k] != vary_b[vsp + k] {
          NotPrefix(w, b, k);
          return false;
        }
        k := k + 1;
      }
      assert w[..n] == w;
      same := true;
    }

    /** strcasecmp with the name of the header Accept-Encoding, in the form of http_GetHdr. */
    method IsAE(vary: string, p: nat, ghost name: string) returns (r: bool)
      requires |name| + 1 < 256 && p + |name| + 3 <= |vary| && vary[p..p + |name| + 3] == HdrSpec(name)
      ensures r == IsAcceptEncoding(name)
    {
      var h := "Accept-Encoding";
      assert vary[p] == vary[p..p + |name| + 3][0];
      if vary[p] as nat != |h| + 1 { return false; }
      var k := 0;
      while k < |h|
        invariant k <= |h| && forall i :: 0 <= i < k ==> Lower(name[i]) == Lower(h[i])
      {
        assert vary[p + 1 + k] == vary[p..p + |name| + 3][1 + k] == name[k];
        if Lower(vary[p + 1 + k]) != Lower(h[k]) { return false; }
        k := k + 1;
      }
      r := true;
    }

    /** The first comparison of vry_cmp: over the length of the entry. */
    method SameEntry(vary: string, p: nat, vsp: nat, ghost e: Entry, ghost m: Option<Entry>) returns (same: bool)
      requires Fits(e) && p + |Bytes(e)| <= |vary| && vary[p..p + |Bytes(e)|] == Bytes(e)
      requires Holds(vsp, m)
      ensures same <==> m == Some(e)
    {
      LenOfEntry(vary, p, e);
      Decides(vsp, e, m);
      hide Bytes, HdrSpec, Holds, Fits, Decided;
      same := Memcmp(vary, p, vsp, EntryLen(vary, p));
    }

    /** The second: over the name of the header with its length in front and its colon and zero byte behind. */
    method SameHeader(vary: string, p: nat, vsp: nat, ghost e: Entry, ghost m: Option<Entry>) returns (same: bool)
      requires Fits(e) && p + |Bytes(e)| <= |vary| && vary[p..p + |Bytes(e)|] == Bytes(e)
      requires Holds(vsp, m)
      ensures same <==> m.Some? && m.value.name == e.name
    {
      LenOfEntry(vary, p, e);
      HeaderPart(vary, p, e);
      Decides(vsp, e, m);
      hide Bytes, HdrSpec, Holds, Fits, Decided;
      same := Memcmp(vary, p + 2, vsp + 2, vary[p + 2] as nat + 2);
    }

    /** vry_cmp: 0 for the same, 1 for another header, 2 for another value. */
    method VryCmp(vary: string, p: nat, vsp: nat, ghost e: Entry, ghost m: Option<Entry>) returns (r: nat)
      requires Fits(e) && p + |Bytes(e)| <= |vary| && vary[p..p + |Bytes(e)|] == Bytes(e)
      requires Holds(vsp, m)
      ensures r == Compare(gzip, e, m)
    {
      hide Bytes, HdrSpec, Holds, Fits;
      var same := SameEntry(vary, p, vsp, e, m);
      if same { return 0; }
      same := SameHeader(vary, p, vsp, e, m);
      if !same { return 1; }
      HeaderPart(vary, p, e);
      if gzip {
        var ae := IsAE(vary, p + 2, e.name);
        if ae { return 0; }
      }
      r := 2;
    }

    /** EntryDecides for what the buffer holds. */
    lemma Decides(vsp: nat, e: Entry, m: Option<Entry>)
      requires Fits(e) && Holds(vsp, m)
      ensures vsp + 2 <= vary_b.Length && |vary_b[vsp..]| >= 2 && vary_b[vsp..][2..] == vary_b[vsp + 2..]
      ensures Decided(Bytes(e), vary_b[vsp..]) && (Bytes(e) <= vary_b[vsp..] <==> m == Some(e))
      ensures Decided(HdrSpec(e.name), vary_b[vsp + 2..])
      ensures HdrSpec(e.name) <= vary_b[vsp + 2..] <==> m.Some? && m.value.name == e.name
      ensures |HdrSpec(e.name)| == |e.name| + 3
    {
      if m.Some? { assert vary_b[vsp..][..|Bytes(m.value)|] == vary_b[vsp..vsp + |Bytes(m.value)|]; }
      EntryDecides(e, m, vary_b[vsp..]);
      hide Bytes;
    }

    /** Writes bytes into the buffer. */
    method Memcpy(vsp: nat, b: string)
      requires vsp + |b| <= vary_b.Length
      modifies vary_b
      ensures vary_b[..vsp] == old(vary_b[..vsp]) && vary_b[vsp..vsp + |b|] == b
      ensures vary_b[vsp + |b|..] == old(vary_b[vsp + |b|..])
    {
      var k := 0;
      while k < |b|
        invariant k <= |b| && vary_b[..vsp] == old(vary_b[..vsp]) && vary_b[vsp..vsp + k] == b[..k]
        invariant vary_b[vsp + k..] == old(vary_b[vsp + k..])
      {
        vary_b[vsp + k] := b[k];
        k := k + 1;
        assert vary_b[vsp + k..] == old(vary_b[vsp + k..]);
      }
    }

    /** The request's entry for the header at hand. */
    method OwnEntry(vary: string, p: nat, ghost e: Entry) returns (b: string)
      requires Fits(e) && p + |Bytes(e)| <= |vary| && vary[p..p + |Bytes(e)|] == Bytes(e) && ShortValues(req)
      ensures Fits(Own(req, e.name)) && b == Bytes(Own(req, e.name))
    {
      LenOfEntry(vary, p, e);
      HeaderPart(vary, p, e);
      OwnFits(C(), e);
      var n := vary[p + 2] as nat;
      var h := vary[p + 2..p + 2 + n + 2];
      var name := h[1..n];
      assert HdrSpec(e.name)[1..n] == e.name;
      var value := GetOwn(req, name);
      var lh := if value.Some? then |value.value| else 0xffff;
      b := [(lh / 256) as char, (lh % 256) as char] + h + if value.Some? then value.value else [];
    }

    /** Puts an entry behind what is kept, with an end marker behind it. */
    method PutEntry(vsp: nat, b: string, ghost kept: seq<Entry>, ghost own: Entry)
      requires Valid() && AllFit(kept) && Fits(own) && b == Bytes(own) && own == Own(req, own.name)
      requires forall i :: 0 <= i < |kept| ==> kept[i] == Own(req, kept[i].name)
      requires vsp == |AllBytes(kept)| <= vary_b.Length && vary_b[..vsp] == AllBytes(kept)
      requires vsp + |b| + 2 < vary_b.Length
      modifies this`memo, vary_b
      ensures Valid() && memo == kept + [own] && Holds(vsp, Some(own))
    {
      hide Bytes, Own, Fits, AllBytes;
      Memcpy(vsp, b);
      vary_b[vsp + |b| + 2] := '\0';
      assert vary_b[..vsp] == AllBytes(kept) && vary_b[vsp..vsp + |b|] == b;
      Joined(vary_b[..], vsp, b);
      AllBytesSnoc(kept, own);
      memo := kept + [own];
    }

    /** Builds the request's entry for the header at hand, at `vsp0` or, if it does not fit, at the front.
        `ok` is the assertion that it fits with the end marker. */
    method Build(vary: string, p: nat, vsp0: nat, ghost e: Entry, ghost j: nat) returns (ok: bool, vsp: nat, full: bool)
      requires Valid() && j <= |memo| && AllFit(memo[..j]) && vsp0 == |AllBytes(memo[..j])|
      requires Fits(e) && p + |Bytes(e)| <= |vary| && vary[p..p + |Bytes(e)|] == Bytes(e)
      modifies this`memo, vary_b
      ensures Fits(Own(req, e.name)) && full == (vsp0 + |Bytes(Own(req, e.name))| >= vary_b.Length)
      ensures var own := Own(req, e.name);
        var kept := Kept(C(), old(memo), j, own);
        && ok == (|AllBytes(kept)| + |Bytes(own)| + 2 < vary_b.Length)
        && vsp == |AllBytes(kept)|
        && (ok ==> Valid() && memo == kept + [own] && Holds(vsp, Some(own)))
    {
      var b := OwnEntry(vary, p, e);
      hide Bytes, Own, Fits;
      ghost var own := Own(req, e.name);
      ghost var kept := Kept(C(), memo, j, own);
      full := vsp0 + |b| >= vary_b.Length;
      vsp := if full then 0 else vsp0;
      assert AllBytes([]) == [];
      ok := vsp + |b| + 2 < vary_b.Length;
      if !ok { return; }
      KeptBytes(j, kept);
      OwnIsOwn(req, e.name);
      PutEntry(vsp, b, kept, own);
    }

    lemma KeptBytes(j: nat, kept: seq<Entry>)
      requires Valid() && j <= |memo| && AllFit(memo[..j]) && (kept == [] || kept == memo[..j])
      ensures AllFit(kept) && |AllBytes(kept)| <= vary_b.Length && vary_b[..|AllBytes(kept)|] == AllBytes(kept)
    {
      if kept != [] {
        if j < |memo| {
          EntryAt(memo, j);
          assert vary_b[..|AllBytes(kept)|] == vary_b[..|AllBytes(memo)|][..|AllBytes(kept)|];
        } else {
          assert memo[..j] == memo;
        }
      }
    }

    /** vry_len in the buffer. */
    method BufLen(vsp: nat, ghost m: Entry) returns (n: nat)
      requires Holds(vsp, Some(m))
      ensures n == |Bytes(m)|
    {
      assert vary_b[..][vsp..vsp + |Bytes(m)|] == vary_b[vsp..vsp + |Bytes(m)|];
      LenOfEntry(vary_b[..], vsp, m);
      var l := (vary_b[vsp] as nat) * 256 + vary_b[vsp + 1] as nat;
      n := 2 + vary_b[vsp + 2] as nat + 2 + if l == 0xffff then 0 else l;
    }

    method Past(vsp0: nat, ghost k: nat) returns (vsp: nat)
      requires Valid() && k < |memo| && AllFit(memo[..k]) && vsp0 == |AllBytes(memo[..k])|
      ensures AllFit(memo[..k + 1]) && vsp == |AllBytes(memo[..k + 1])|
    {
      NthHolds(k);
      hide Bytes, Fits, AllBytes, Memo;
      var n := BufLen(vsp0, memo[k]);
      vsp := vsp0 + n;
    }

    /** The entry in the buffer for the header at hand, and how they compare. */
    ghost predicate ReadyAt(e: Entry, i: nat, vsp: nat, k: nat) reads this, vary_b {
      && Valid() && k < |memo| && memo[k] == Own(req, e.name) && AllFit(memo[..k])
      && vsp == |AllBytes(memo[..k])| && i == Compare(gzip, e, Some(memo[k]))
    }

    method BuildAndCompare(vary: string, p: nat, vsp0: nat, ghost e: Entry, ghost j: nat)
      returns (ok: bool, i: nat, vsp: nat, full: bool, ghost k: nat)
      requires Valid() && Fits(e) && j <= |memo| && AllFit(memo[..j]) && vsp0 == |AllBytes(memo[..j])|
      requires p + |Bytes(e)| <= |vary| && vary[p..p + |Bytes(e)|] == Bytes(e)
      requires !(j < |memo| && memo[j].name == e.name) && Fits(Own(req, e.name))
      modifies this`memo, vary_b
      ensures MadeReady(C(), e, old(memo), j, ok, full, memo, k) && (ok ==> ReadyAt(e, i, vsp, k))
    {
      hide Bytes, Fits, AllBytes, Own, Kept;
      ghost var kept, own := Kept(C(), memo, j, Own(req, e.name)), Own(req, e.name);
      i, k := 0, 0;
      ok, vsp, full := Build(vary, p, vsp0, e, j);
      if ok {
        k := |memo| - 1;
        assert memo[..k] == kept && memo[k] == own;
        i := VryCmp(vary, p, vsp, e, Some(own));
      }
    }

    /** Makes sure the buffer has the request's entry for the header at hand. */
    method Ready(vary: string, p: nat, vsp0: nat, ghost e: Entry, ghost j: nat)
      returns (ok: bool, i: nat, vsp: nat, full: bool, ghost k: nat)
      requires Valid() && Fits(e) && j <= |memo| && AllFit(memo[..j]) && vsp0 == |AllBytes(memo[..j])|
      requires p + |Bytes(e)| <= |vary| && vary[p..p + |Bytes(e)|] == Bytes(e)
      modifies this`memo, vary_b
      ensures Fits(Own(req, e.name))
      ensures MadeReady(C(), e, old(memo), j, ok, full, memo, k) && (ok ==> ReadyAt(e, i, vsp, k))
    {
      OwnFits(C(), e);
      hide Bytes, Fits, AllBytes, Own, Holds;
      NthHolds(j);
      i := VryCmp(vary, p, vsp0, e, Nth(j));
      ok, vsp, full, k := true, vsp0, false, j;
      if i == 1 { ok, i, vsp, full, k := BuildAndCompare(vary, p, vsp0, e, j); }
    }

    /** One entry of the spec against the buffer. */
    method MatchEntry(vary: string, p: nat, vsp0: nat, ghost es: seq<Entry>, ghost j: nat, ghost oflo: bool)
      returns (ok: bool, agrees: bool, vsp: nat, full: bool, ghost j': nat)
      requires Valid() && AllFit(es) && es != [] && j <= |memo| && AllFit(memo[..j]) && vsp0 == |AllBytes(memo[..j])|
      requires p + |Bytes(es[0])| <= |vary| && vary[p..p + |Bytes(es[0])|] == Bytes(es[0])
      modifies this`memo, vary_b
      ensures !ok ==> Walk(C(), es, old(memo), j, oflo) == Panic
      ensures ok ==> Valid() && j' <= |memo| && AllFit(memo[..j']) && vsp == |AllBytes(memo[..j'])|
      ensures ok ==> Walk(C(), es, old(memo), j, oflo) == Agreed(Walk(C(), es[1..], memo, j', oflo || full), agrees)
    {
      ghost var e, was := es[0], memo;
      assert Fits(e);
      hide Bytes, Fits, Walk, AllBytes, Own, MadeReady, Agrees, Kept, Memo;
      var i;
      ok, i, vsp, full, j' := Ready(vary, p, vsp0, e, j);
      ReadyOutcome(C(), es, was, j, oflo, ok, full, memo, j');
      if !ok {
        agrees := false;
        return;
      }
      agrees := i == 0;
      Agreement(gzip, req, e);
      vsp := Past(vsp, j');
      j' := j' + 1;
    }

    /** The end marker, and how much of the buffer there is to keep. */
    method Finish(vsp0: nat, oflo0: bool, ghost j: nat)
      requires Valid() && j <= |memo| && AllFit(memo[..j]) && vsp0 == |AllBytes(memo[..j])|
      modifies this`memo, this`vary_l, vary_b
      ensures Valid() && memo == if oflo0 then [] else old(memo)[..j]
      ensures vary_l == if oflo0 then None else Some(|Spec(memo)|)
      ensures !oflo0 ==> vary_b[..vary_l.value] == Spec(memo)
    {
      var vsp, oflo := vsp0, oflo0;
      MemoPrefix(C(), memo, j);
      KeptBytes(j, memo[..j]);
      hide Bytes, Fits, Own, Spec;
      if vsp + 3 > vary_b.Length { oflo := true; }
      if oflo { vsp := 0; }
      ghost var kept := if oflo then [] else memo[..j];
      assert AllBytes([]) == [];
      memo := kept;
      PutEnd(vsp);
      vary_l := if oflo then None else Some(vsp + 3);
    }

    method PutEnd(vsp: nat)
      requires ShortValues(req) && Memo(C(), memo) && vsp == |AllBytes(memo)| && vary_b[..vsp] == AllBytes(memo)
      modifies vary_b
      ensures Valid() && |Spec(memo)| == vsp + 3 <= vary_b.Length && vary_b[..vsp + 3] == Spec(memo)
    {
      hide Bytes, Fits, Own, AllBytes;
      ghost var front := vary_b[..vsp];
      vary_b[vsp], vary_b[vsp + 1], vary_b[vsp + 2] := '\U{ff}', '\U{ff}', '\0';
      assert vary_b[..vsp] == front;
      assert vary_b[..vsp + 3] == front + END;
    }

    /** VRY_Match for a candidate's spec. Its assertion on room holds exactly if the request's own entries pack,
        and then it says yes exactly if every entry agrees with the request; what earlier candidates left in
        the buffer matters for neither. There is a spec left to keep exactly if the request's own fits as a
        whole, and it is that. */
    method Match(vary: string, ghost es: seq<Entry>) returns (ok: bool, retval: bool)
      requires Valid() && AllFit(es) && vary == Spec(es)
      modifies this`memo, this`vary_l, vary_b
      ensures ok <==> Packs(C(), es, 0)
      ensures ok ==> Valid() && (retval <==> forall i :: 0 <= i < |es| ==> Agrees(gzip, req, es[i]))
      ensures AllFit(Owns(req, es))
      ensures ok ==> (vary_l.Some? <==> |Spec(Owns(req, es))| <= vary_b.Length)
      ensures |Spec(Owns(req, es))| <= vary_b.Length ==>
        && ok && memo == Owns(req, es) && vary_l == Some(|Spec(memo)|)
        && vary_b[..vary_l.value] == Spec(Owns(req, es))
    {
      MatchVerdict(C(), es, memo, 0, false);
      MatchEnds(C(), es, memo);
      FitsExactly(C(), es, memo);
      hide Walk, Spec, AllBytes, Bytes, Agrees, Memo;
      ok, retval := VryMatch(vary, es);
    }

    /** VRY_Match on the bytes of a spec: the outcome is that of the walk over its entries, and without an
        overflow the buffer becomes the spec of the request's own values. */
    method VryMatch(vary: string, ghost es: seq<Entry>) returns (ok: bool, retval: bool)
      requires Valid() && AllFit(es) && vary == Spec(es)
      modifies this`memo, this`vary_l, vary_b
      ensures var r := Walk(C(), es, old(memo), 0, false);
        && (ok <==> r.Done?)
        && (ok ==> Valid() && retval == r.all && memo == (if r.oflo then [] else r.memo))
        && (ok ==> vary_l == if r.oflo then None else Some(|Spec(memo)|))
        && (ok && !r.oflo ==> vary_b[..vary_l.value] == Spec(memo))
    {
      ghost var r := Walk(C(), es, memo, 0, false);
      var vsp: nat, p: nat, oflo := 0, 0, false;
      ghost var i: nat, j: nat := 0, 0;
      ok, retval := true, true;
      StartGoing(vary, es);
      hide Going, Memo, Walk, Spec, AllBytes;
      while vary[p + 2] != '\0'
        invariant Going(vary, es, i, p, j, vsp, oflo, retval, r) && p + 2 < |vary|
        decreases |es| - i
      {
        ok, p, vsp, oflo, retval, j := Turn(vary, p, vsp, oflo, retval, es, i, j, r);
        if !ok { return; }
        i := i + 1;
      }
      Ended(vary, es, i, p, j, vsp, oflo, retval, r);
      Finish(vsp, oflo, j);
    }

    /** Where a match stands: at entry `i` of the spec and `j` of the buffer, with the rest of the walk and
        what was found so far making up its outcome. */
    ghost predicate Going(vary: string, es: seq<Entry>, i: nat, p: nat, j: nat, vsp: nat, oflo: bool, retval: bool,
                          r: Outcome)
      reads this, vary_b
    {
      && Valid() && AllFit(es) && vary == Spec(es)
      && i <= |es| && AllFit(es[..i]) && AllFit(es[i..]) && p == |AllBytes(es[..i])|
      && j <= |memo| && AllFit(memo[..j]) && vsp == |AllBytes(memo[..j])|
      && r == Agreed(Walk(C(), es[i..], memo, j, oflo), retval)
    }

    lemma StartGoing(vary: string, es: seq<Entry>)
      requires Valid() && AllFit(es) && vary == Spec(es)
      ensures Going(vary, es, 0, 0, 0, 0, false, true, Walk(C(), es, memo, 0, false)) && 2 < |vary|
    {
      assert es[0..] == es && es[..0] == [] && memo[..0] == [] && AllBytes([]) == [];
      hide Walk, Memo, Bytes;
      SpecAt(es, 0);
    }

    lemma Ended(vary: string, es: seq<Entry>, i: nat, p: nat, j: nat, vsp: nat, oflo: bool, retval: bool, r: Outcome)
      requires Going(vary, es, i, p, j, vsp, oflo, retval, r) && p + 2 < |vary| && vary[p + 2] == '\0'
      ensures Valid() && j <= |memo| && AllFit(memo[..j]) && vsp == |AllBytes(memo[..j])|
      ensures r == Done(retval, memo[..j], oflo)
    {
      hide Bytes, AllBytes, Memo;
      SpecAt(es, i);
      assert i == |es| && es[i..] == [];
    }

    /** One turn of the loop of VRY_Match. */
    method Turn(vary: string, p0: nat, vsp0: nat, oflo0: bool, retval0: bool, ghost es: seq<Entry>, ghost i: nat,
                ghost j0: nat, ghost r: Outcome)
      returns (ok: bool, p: nat, vsp: nat, oflo: bool, retval: bool, ghost j: nat)
      requires Going(vary, es, i, p0, j0, vsp0, oflo0, retval0, r) && p0 + 2 < |vary| && vary[p0 + 2] != '\0'
      modifies this`memo, vary_b
      ensures i < |es| && (!ok ==> r == Panic)
      ensures ok ==> Going(vary, es, i + 1, p, j, vsp, oflo, retval, r) && p + 2 < |vary|
    {
      hide Bytes, Walk, Memo, AllBytes, Agrees, Spec;
      SpecAt(es, i);
      assert es[i..][0] == es[i] && es[i..][1..] == es[i + 1..];
      var agrees, full;
      ok, agrees, vsp, full, j := MatchEntry(vary, p0, vsp0, es[i..], j0, oflo0);
      p := p0 + EntryLen(vary, p0);
      oflo := oflo0 || full;
      retval := if agrees then retval0 else false;
      SpecAt(es, i + 1);
    }
  }

  /** Where entry `i` lies in a spec, and how its end shows. */
  lemma SpecAt(es: seq<Entry>, i: nat)
    requires AllFit(es) && i <= |es|
    ensures AllFit(es[..i]) && AllFit(es[i..])
    ensures var s, p := Spec(es), |AllBytes(es[..i])|;
      && p + 2 < |s| && (s[p + 2] != '\0' <==> i < |es|)
      && (i < |es| ==>
            && p + |Bytes(es[i])| <= |s| && s[p..p + |Bytes(es[i])|] == Bytes(es[i])
            && AllFit(es[..i + 1]) && |AllBytes(es[..i + 1])| == p + EntryLen(s, p))
  {
    if i < |es| {
      SpecInside(es, i);
      var s, p := Spec(es), |AllBytes(es[..i])|;
      hide Bytes, Fits, Spec, AllBytes;
      LenOfEntry(s, p, es[i]);
    } else {
      assert es[..i] == es;
    }
  }

  lemma SpecInside(es: seq<Entry>, i: nat)
    requires AllFit(es) && i < |es|
    ensures AllFit(es[..i]) && AllFit(es[..i + 1])
    ensures var s, p := Spec(es), |AllBytes(es[..i])|;
      && p + |Bytes(es[i])| <= |s| && s[p..p + |Bytes(es[i])|] == Bytes(es[i])
      && |AllBytes(es[..i + 1])| == p + |Bytes(es[i])|
  {
    EntryAt(es, i);
    hide Bytes, Fits;
    var s, p, b := Spec(es), |AllBytes(es[..i])|, Bytes(es[i]);
    assert s[p..p + |b|] == AllBytes(es)[p..p + |b|];
  }

  /** What making an entry ready does to the buffer. */
  ghost predicate MadeReady(c: Ctx, e: Entry, was: seq<Entry>, j: nat, ok: bool, full: bool, memo: seq<Entry>, k: nat)
    requires Memo(c, was) && j <= |was| && AllFit(was[..j]) && Fits(Own(c.req, e.name))
  {
    var own := Own(c.req, e.name);
    if j < |was| && was[j].name == e.name then ok && !full && k == j && memo == was
    else
      && ok == (|AllBytes(Kept(c, was, j, own))| + |Bytes(own)| + 2 < c.size)
      && full == (|AllBytes(was[..j])| + |Bytes(own)| >= c.size)
      && (ok ==> memo == Kept(c, was, j, own) + [own] && k == |memo| - 1)
  }

  lemma ReadyOutcome(c: Ctx, es: seq<Entry>, was: seq<Entry>, j: nat, oflo: bool, ok: bool, full: bool,
                     memo: seq<Entry>, k: nat)
    requires ShortValues(c.req) && AllFit(es) && es != [] && Memo(c, was) && j <= |was| && AllFit(was[..j])
    requires Fits(Own(c.req, es[0].name)) && MadeReady(c, es[0], was, j, ok, full, memo, k)
    ensures !ok ==> Walk(c, es, was, j, oflo) == Panic
    ensures ok ==>
      && Memo(c, memo) && k + 1 <= |memo|
      && Walk(c, es, was, j, oflo)
         == Agreed(Walk(c, es[1..], memo, k + 1, oflo || full), Agrees(c.gzip, c.req, es[0]))
  {
    hide Bytes, Fits, Walk, AllBytes, Own, Agrees;
    WalkOn(c, es, was, j, oflo);
  }

  /** Comparing with the request's own entry decides whether they agree. */
  lemma Agreement(gzip: bool, req: Request, e: Entry)
    ensures Compare(gzip, e, Some(Own(req, e.name))) == 0 <==> Agrees(gzip, req, e)
  {
  }

  lemma Joined(s: string, p: nat, b: string)
    requires p + |b| <= |s| && s[p..p + |b|] == b
    ensures s[..p + |b|] == s[..p] + b
  {
    assert s[..p + |b|] == s[..p] + s[p..p + |b|];
  }

  lemma OwnIsOwn(req: Request, name: string)
    ensures Own(req, name).name == name
  {
  }

  /** Whether `w` is a prefix of `b` shows within `b`. */
  ghost predicate Decided(w: string, b: string) {
    |w| <= |b| || exists k :: 0 <= k < |w| && k < |b| && w[k] != b[k]
  }

  lemma DecidedAt(w: string, b: string, k: nat)
    requires Decided(w, b) && k < |w| && k <= |b| && w[..k] == b[..k]
    ensures k < |b|
  {
    forall i | 0 <= i < k ensures w[i] == b[i] { assert w[..k][i] == b[..k][i]; }
  }

  lemma NotPrefix(w: string, b: string, k: nat)
    requires k < |w| && k < |b| && w[k] != b[k]
    ensures !(w <= b)
  {
  }

  lemma HeaderPart(vary: string, p: nat, e: Entry)
    requires Fits(e) && p + |Bytes(e)| <= |vary| && vary[p..p + |Bytes(e)|] == Bytes(e)
    ensures |e.name| + 1 < 256 && |Bytes(e)| >= |e.name| + 5 && vary[p + 2..p + 2 + |e.name| + 3] == HdrSpec(e.name)
  {
    var s, h := vary[p..], HdrSpec(e.name);
    assert |Bytes(e)| >= |e.name| + 5 && |h| == |e.name| + 3;
    hide Bytes, HdrSpec;
    assert s[..|Bytes(e)|] == vary[p..p + |Bytes(e)|];
    HeaderOfBytes(e, s);
    assert vary[p + 2..p + 2 + |h|] == s[2..][..|h|];
  }

  /** What the two comparisons of vry_cmp find out, and that they stay within the buffer. */
  lemma EntryDecides(e: Entry, m: Option<Entry>, b: string)
    requires Fits(e)
    requires match m case Some(f) => Fits(f) && Bytes(f) <= b case None => |b| > 2 && b[2] == '\0'
    ensures Decided(Bytes(e), b) && (Bytes(e) <= b <==> m == Some(e))
    ensures |b| >= 2 && Decided(HdrSpec(e.name), b[2..])
    ensures HdrSpec(e.name) <= b[2..] <==> m.Some? && m.value.name == e.name
  {
    var w, h := Bytes(e), HdrSpec(e.name);
    match m
    case None =>
      assert w[2] == h[0] != '\0';
      assert w[2] != b[2] && h[0] != b[2..][0];
    case Some(f) =>
      if f != e {
        EntriesDiffer(e, f);
        var k :| 0 <= k < |w| && k < |Bytes(f)| && w[k] != Bytes(f)[k];
        assert b[k] == Bytes(f)[k];
      }
      HeadersDecide(e.name, f.name, b[2..]) by { HeaderOfBytes(f, b); }
  }

  lemma HeaderOfBytes(f: Entry, b: string)
    requires Fits(f) && Bytes(f) <= b
    ensures |b| >= 2 && HdrSpec(f.name) <= b[2..]
  {
    var h := HdrSpec(f.name);
    assert Bytes(f)[2..2 + |h|] == h;
    assert b[2..][..|h|] == Bytes(f)[2..2 + |h|];
  }

  lemma HeadersDecide(a: string, c: string, b: string)
    requires |a| + 1 < 256 && |c| + 1 < 256 && HdrSpec(c) <= b
    ensures Decided(HdrSpec(a), b) && (HdrSpec(a) <= b <==> a == c)
  {
    var s, t := HdrSpec(a), HdrSpec(c);
    SameHdr(a, c);
    if |a| != |c| {
      assert s[0] != t[0] && b[0] == t[0];
    } else {
      assert |s| == |t| && b[..|t|] == t;
    }
  }

  // ---- recording ----

  function SkipSp(s: string): (r: string)
    ensures |r| <= |s| && (r != [] ==> !IsSp(r[0]))
  {
    if s != [] && IsSp(s[0]) then SkipSp(s[1..]) else s
  }

  /** A header name: up to white space or a comma. */
  function Token(s: string): (r: string)
    ensures r <= s
  {
    if s == [] || IsSp(s[0]) || s[0] == ',' then [] else [s[0]] + Token(s[1..])
  }

  /** The names in a Vary header, up to where something other than a comma follows one, and whether that
      does not happen. */
  function Names(s: string): (seq<string>, bool)
    decreases |s|
  {
    if s == [] then ([], true)
    else if IsSp(s[0]) then Names(s[1..])
    else
      var n := Token(s);
      var t := SkipSp(s[|n|..]);
      if t == [] then ([n], true)
      else if t[0] != ',' then ([n], false)
      else
        var r := Names(t[1..]);
        ([n] + r.0, r.1)
  }

  function OwnAll(req: Request, names: seq<string>): (r: seq<Entry>)
    ensures |r| == |names| && forall i :: 0 <= i < |r| ==> r[i] == Own(req, names[i])
  {
    if names == [] then [] else OwnAll(req, names[..|names| - 1]) + [Own(req, names[|names| - 1])]
  }

  /** A Vary header without the extra colon some backends put in front. */
  function NoColon(v: string): string { if v != [] && v[0] == ':' then v[1..] else v }

  predicate ShortNames(names: seq<string>) {
    forall i :: 0 <= i < |names| ==> |names[i]| + 1 < 256
  }

  lemma OwnAllFits(req: Request, names: seq<string>)
    requires ShortValues(req) && ShortNames(names)
    ensures AllFit(OwnAll(req, names))
  {
  }

  /** The bytes VRY_Create appends for one header. */
  method EntryBytes(req: Request, name: string) returns (b: string)
    requires ShortValues(req) && |name| + 1 < 256
    ensures Fits(Own(req, name)) && b == Bytes(Own(req, name))
  {
    var sbh := HdrSpec(name);
    var h := GetOwn(req, name);
    var l := if h.Some? then |h.value| else 0xffff;
    b := [(l / 256) as char, (l % 256) as char] + sbh + if h.Some? then h.value else [];
  }

  /** VRY_Create on the value of a Vary header: a spec of the request's own values for the headers named;
      None for the assertion on what separates them. */
  method Create(v: string, req: Request) returns (spec: Option<string>)
    requires ShortValues(req) && ShortNames(Names(NoColon(v)).0)
    ensures AllFit(OwnAll(req, Names(NoColon(v)).0))
    ensures spec == if Names(NoColon(v)).1 then Some(Spec(OwnAll(req, Names(NoColon(v)).0))) else None
  {
    var p := NoColon(v);
    var sb := [];
    ghost var all, done: seq<string> := Names(p), [];
    OwnAllFits(req, all.0);
    StartNames(req, all);
    hide Bytes, Own, Fits, Names, Spec, AllBytes, OwnAll;
    while p != []
      invariant Recorded(req, all, done, p, sb)
      decreases |p|
    {
      if IsSp(p[0]) {
        NamesOn(p);
        p := p[1..];
      } else {
        var ok, n;
        ok, p, n := Name(req, p, all, done);
        var b := EntryBytes(req, n);
        NextName(req, done, n);
        sb := sb + b;
        done := done + [n];
        if !ok { return None; }
      }
    }
    NoNames(all.0, done);
    spec := Some(sb + END);
    SpecOf(OwnAll(req, done));
  }

  /** What was appended so far is the request's entries for the names so far. */
  ghost predicate Recorded(req: Request, all: (seq<string>, bool), done: seq<string>, p: string, sb: string) {
    && ShortNames(done) && AllFit(OwnAll(req, done)) && sb == AllBytes(OwnAll(req, done))
    && Remaining(all, done, p)
  }

  /** One header name, and what follows it. */
  method Name(req: Request, p: string, ghost all: (seq<string>, bool), ghost done: seq<string>)
    returns (ok: bool, p': string, n: string)
    requires p != [] && !IsSp(p[0]) && Remaining(all, done, p) && ShortNames(all.0)
    ensures |p'| < |p| && |n| + 1 < 256
    ensures if ok then Remaining(all, done + [n], p') else !all.1
  {
    NamesAdvance(all, done, p);
    n := Token(p);
    var q := SkipSp(p[|n|..]);
    ok := q == [] || q[0] == ',';
    p' := if q == [] then [] else q[1..];
  }

  /** The names done and those still ahead are all of them. */
  ghost predicate Remaining(all: (seq<string>, bool), done: seq<string>, p: string) {
    all.0 == done + Names(p).0 && all.1 == Names(p).1
  }

  lemma NamesAdvance(all: (seq<string>, bool), done: seq<string>, p: string)
    requires p != [] && !IsSp(p[0]) && Remaining(all, done, p) && ShortNames(all.0)
    ensures var n := Token(p);
      var q := SkipSp(p[|n|..]);
      && |n| + 1 < 256
      && (q != [] && q[0] != ',' ==> !all.1)
      && (q == [] ==> Remaining(all, done + [n], []))
      && (q != [] && q[0] == ',' ==> Remaining(all, done + [n], q[1..]))
  {
    hide Names;
    NamesOn(p);
    var n := Token(p);
    assert all.0[|done|] == n;
  }

  lemma StartNames(req: Request, all: (seq<string>, bool))
    ensures OwnAll(req, []) == [] && AllBytes([]) == [] && [] + all.0 == all.0
  {
  }

  lemma SpecOf(es: seq<Entry>)
    requires AllFit(es)
    ensures Spec(es) == AllBytes(es) + END
  {
  }

  /** How the names go on at the front of what is left. */
  lemma NamesOn(p: string)
    requires p != []
    ensures IsSp(p[0]) ==> Names(p) == Names(p[1..])
    ensures !IsSp(p[0]) ==>
      var n := Token(p);
      var q := SkipSp(p[|n|..]);
      && Names(p).0 != [] && Names(p).0[0] == n
      && (q != [] && q[0] != ',' ==> Names(p) == ([n], false))
      && (q == [] ==> Names(p) == ([n] + Names([]).0, Names([]).1))
      && (q != [] && q[0] == ',' ==> Names(p) == ([n] + Names(q[1..]).0, Names(q[1..]).1))
  {
    if !IsSp(p[0]) {
      var n := Token(p);
      assert [n] + [] == [n];
    }
  }

  lemma NoNames(all: seq<string>, done: seq<string>)
    requires all == done + Names([]).0
    ensures all == done && Names([]).1
  {
  }

  lemma NextName(req: Request, done: seq<string>, n: string)
    requires ShortValues(req) && ShortNames(done) && |n| + 1 < 256 && AllFit(OwnAll(req, done)) && Fits(Own(req, n))
    ensures ShortNames(done + [n]) && AllFit(OwnAll(req, done + [n]))
    ensures AllBytes(OwnAll(req, done + [n])) == AllBytes(OwnAll(req, done)) + Bytes(Own(req, n))
  {
    assert (done + [n])[..|done|] == done;
    AllBytesSnoc(OwnAll(req, done), Own(req, n));
  }

  /** A spec recorded from a request matches that request in whatever state its buffer is, if its entries
      pack into the buffer one after another. */
  method MatchOwn(m: VaryBuf, v: string) returns (ok: bool, retval: bool)
    requires m.Valid() && ShortNames(Names(NoColon(v)).0) && Names(NoColon(v)).1
    modifies m, m.vary_b
    ensures AllFit(OwnAll(m.req, Names(NoColon(v)).0))
    ensures ok <==> Packs(old(m.C()), OwnAll(m.req, Names(NoColon(v)).0), 0)
    ensures ok ==> retval
  {
    var spec := Create(v, m.req);
    ghost var es := OwnAll(m.req, Names(NoColon(v)).0);
    ok, retval := m.Match(spec.value, es);
  }

  /** VRY_Validate: its assertion that each header name has the length it claims holds exactly if no name of
      the spec has a zero byte in it. */
  method Validate(vary: string, ghost es: seq<Entry>) returns (ok: bool)
    requires AllFit(es) && vary == Spec(es)
    ensures ok <==> forall i :: 0 <= i < |es| ==> '\0' !in es[i].name
  {
    var p: nat := 0;
    ghost var i: nat := 0;
    ok := true;
    FirstEntry(vary, es);
    hide AtEntry;
    while vary[p + 2] != '\0'
      invariant AtEntry(vary, es, i, p) && p + 2 < |vary| && i <= |es| && ok
      invariant forall k :: 0 <= k < i ==> '\0' !in es[k].name
      decreases |es| - i
    {
      NextEntry(vary, es, i, p);
      hide Bytes, Fits;
      var good := NameChecks(vary, p, es[i]);
      if !good { return false; }
      p := p + EntryLen(vary, p);
      i := i + 1;
    }
    LastEntry(vary, es, i, p);
  }

  lemma LastEntry(vary: string, es: seq<Entry>, i: nat, p: nat)
    requires AtEntry(vary, es, i, p) && p + 2 < |vary| && vary[p + 2] == '\0'
    ensures i == |es|
  {
    SpecAt(es, i);
  }

  /** Entry `i` of a spec starts at `p`. */
  ghost predicate AtEntry(vary: string, es: seq<Entry>, i: nat, p: nat) {
    AllFit(es) && vary == Spec(es) && i <= |es| && AllFit(es[..i]) && p == |AllBytes(es[..i])|
  }

  lemma FirstEntry(vary: string, es: seq<Entry>)
    requires AllFit(es) && vary == Spec(es)
    ensures AtEntry(vary, es, 0, 0) && 2 < |vary|
  {
    assert es[..0] == [] && AllBytes([]) == [];
  }

  lemma NextEntry(vary: string, es: seq<Entry>, i: nat, p: nat)
    requires AtEntry(vary, es, i, p) && p + 2 < |vary| && vary[p + 2] != '\0'
    ensures i < |es| && Fits(es[i]) && p + |Bytes(es[i])| <= |vary|
    ensures vary[p..p + |Bytes(es[i])|] == Bytes(es[i])
    ensures AtEntry(vary, es, i + 1, p + EntryLen(vary, p)) && p + EntryLen(vary, p) + 2 < |vary|
  {
    SpecAt(es, i);
    SpecAt(es, i + 1);
  }

  /** The assertion of VRY_Validate on one entry: the first zero byte is the one behind the name. */
  method NameChecks(vary: string, p: nat, ghost e: Entry) returns (ok: bool)
    requires Fits(e) && p + |Bytes(e)| <= |vary| && vary[p..p + |Bytes(e)|] == Bytes(e)
    ensures ok <==> '\0' !in e.name
  {
    NameAt(vary, p, e);
    hide Bytes;
    var n := StrLen(vary, p + 3, e.name + [':']);
    ok := n == vary[p + 2] as nat;
    assert '\0' in e.name + [':'] <==> '\0' in e.name;
  }

  lemma InPart(s: string, p: nat, u: string)
    requires p + |u| <= |s| && s[p..p + |u|] == u
    ensures '\0' in u <==> exists k :: p <= k < p + |u| && s[k] == '\0'
  {
    forall k | p <= k < p + |u| ensures s[k] == u[k - p] { assert s[k] == s[p..p + |u|][k - p]; }
    if '\0' in u {
      var k :| 0 <= k < |u| && u[k] == '\0';
      assert s[p + k] == '\0';
    }
  }

  method StrLen(s: string, p: nat, ghost u: string) returns (n: nat)
    requires p + |u| < |s| && s[p..p + |u|] == u && s[p + |u|] == '\0'
    ensures n <= |u| && (n == |u| <==> '\0' !in u)
  {
    n := 0;
    InPart(s, p, u);
    while s[p + n] != '\0'
      invariant n <= |u| && forall k :: p <= k < p + n ==> s[k] != '\0'
      decreases |u| - n
    {
      n := n + 1;
    }
  }

  lemma NameAt(vary: string, p: nat, e: Entry)
    requires Fits(e) && p + |Bytes(e)| <= |vary| && vary[p..p + |Bytes(e)|] == Bytes(e)
    ensures var u := e.name + [':'];
      p + 3 + |u| < |vary| && vary[p + 3..p + 3 + |u|] == u && vary[p + 3 + |u|] == '\0'
    ensures vary[p + 2] as nat == |e.name| + 1
  {
    LenOfEntry(vary, p, e);
    HeaderPart(vary, p, e);
    var h, u := HdrSpec(e.name), e.name + [':'];
    var s := vary[p + 2..p + 2 + |h|];
    assert s == h && h[1..1 + |u|] == u && h[1 + |u|] == '\0';
    assert vary[p + 3..p + 3 + |u|] == s[1..1 + |u|] && vary[p + 3 + |u|] == s[1 + |u|];
  }
}
