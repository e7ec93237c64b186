/** vep_do_include at the end of a tag: the text of an include as it is appended, byte by byte. */
module EsiInclude {
  import opened Wrappers
  import opened Seqs
  import opened EsiMarks
  import opened EsiStep
  import opened EsiCode

  /** Reading past the end finds the terminator. */
  function CharAt(s: string, i: nat): char { if i < |s| then s[i] else '\0' }

  lemma {:induction false} CStringFrom(s: string, k: nat)
    requires k <= |CString(s)|
    ensures CString(s)[k..] == CString(s[k..])
  {
    if k == 0 {
      assert s[0..] == s;
    } else {
      CStringFrom(s[1..], k - 1);
      assert s[1..][k - 1..] == s[k..] && CString(s)[k..] == CString(s[1..])[k - 1..];
    }
  }

  /** An entity without a NUL is found before the terminator or not at all. */
  lemma {:induction false} EntityInCString(w: string, s: string)
    requires '\0' !in w
    ensures w <= s <==> w <= CString(s)
  {
    if w != [] && s != [] && w[0] == s[0] {
      assert w[0] in w;
      EntityInCString(w[1..], s[1..]);
      FirstThenRest(w, s);
      FirstThenRest(w, CString(s));
    }
  }

  lemma FirstThenRest(w: string, s: string)
    requires w != [] && s != []
    ensures w <= s <==> w[0] == s[0] && w[1..] <= s[1..]
  {
    if w[0] == s[0] && w[1..] <= s[1..] {
      forall i | 0 <= i < |w| ensures w[i] == s[i] { if i > 0 { assert w[1..][i - 1] == s[1..][i - 1]; } }
    }
    if w <= s { assert s[1..][..|w| - 1] == s[..|w|][1..]; }
  }

  /** strchr for a slash from `from` on. */
  method FindSlash(src: string, from: nat) returns (q: Option<nat>)
    requires from <= |CString(src)|
    ensures var rest := CString(src)[from..];
      q == if Index(rest, '/') < |rest| then Some(from + Index(rest, '/')) else None
  {
    ghost var p := CString(src);
    var k := from;
    while CharAt(src, k) != '/' && CharAt(src, k) != '\0'
      invariant from <= k <= |p| && '/' !in p[from..k]
      decreases |src| - k
    {
      assert p[from..k + 1] == p[from..k] + [p[k]];
      k := k + 1;
    }
    IndexIs(p[from..], '/', k - from);
    q := if CharAt(src, k) == '/' then Some(k) else None;
  }

  lemma IndexIs(s: string, c: char, i: nat)
    requires i <= |s| && c !in s[..i] && (i < |s| ==> s[i] == c)
    ensures Index(s, c) == i
  {
  }

  /** The loop over the request URL: the last slash before any '?'. */
  method Directory(url: string) returns (dir: string)
    ensures dir == UrlDir(url)
  {
    var q := 0;
    var h := None;
    while q < |url| && url[q] != '?'
      invariant q <= |url| && '?' !in url[..q]
      invariant h == LastIndex(url[..q], '/')
    {
      assert url[..q + 1][..q] == url[..q];
      if url[q] == '/' { h := Some(q); }
      q := q + 1;
    }
    IndexIs(url, '?', q);
    match h {
      case Some(i) => dir := url[..i];
      case None => dir := if q < |url| then url[..q + 1] else url;
    }
  }

  /** Is the entity `w` at `q`? */
  method HasEntity(src: string, q: nat, w: string) returns (r: bool)
    requires q <= |src| && '\0' !in w
    ensures r <==> w <= CString(src[q..])
  {
    EntityInCString(w, src[q..]);
    r := q + |w| <= |src| && src[q..q + |w|] == w;
    if q + |w| <= |src| { assert src[q..][..|w|] == src[q..q + |w|]; }
  }

  /** What is appended at `q`, and how much of the attribute it takes. */
  method Entity(src: string, q: nat) returns (c: char, w: nat)
    requires q < |src| && src[q] != '\0'
    ensures 0 < w && q + w <= |src| && Unescape(CString(src[q..])) == [c] + Unescape(CString(src[q + w..]))
  {
    ghost var s := CString(src[q..]);
    assert s != [] && s[0] == src[q];
    c, w := src[q], 1;
    if src[q] == '&' {
      var apos := HasEntity(src, q, "&apos;");
      var quot := HasEntity(src, q, "&quot;");
      var lt := HasEntity(src, q, "&lt;");
      var gt := HasEntity(src, q, "&gt;");
      var amp := HasEntity(src, q, "&amp;");
      if apos { c, w := '\'', 6; }
      else if quot { c, w := '"', 6; }
      else if lt { c, w := '<', 4; }
      else if gt { c, w := '>', 4; }
      else if amp { c, w := '&', 5; }
    } else {
      NoEntity(s);
    }
    CStringFrom(src[q..], w);
    assert src[q..][w..] == src[q + w..];
  }

  lemma NoEntity(s: string)
    requires s != [] && s[0] != '&'
    ensures Unescape(s) == [s[0]] + Unescape(s[1..])
  {
    assert "&apos;"[0] == '&' && "&quot;"[0] == '&' && "&lt;"[0] == '&' && "&gt;"[0] == '&' && "&amp;"[0] == '&';
  }

  /** The loop that replaces the entities, from `p` on. */
  method AppendPath(vsb0: string, src: string, p: nat) returns (vsb: string)
    requires p <= |src|
    ensures vsb == vsb0 + Unescape(CString(src[p..]))
  {
    var q := p;
    vsb := vsb0;
    while CharAt(src, q) != '\0'
      invariant p <= q <= |src| && vsb0 + Unescape(CString(src[p..])) == vsb + Unescape(CString(src[q..]))
      decreases |src| - q
    {
      hide Unescape, CString;
      var c, w := Entity(src, q);
      Assoc(vsb, [c], Unescape(CString(src[q + w..])));
      vsb := vsb + [c];
      q := q + w;
    }
    assert CString(src[q..]) == [];
  }

  lemma HttpIsNoNul(src: string)
    requires "http://" <= src
    ensures 7 <= |CString(src)| && "http://" <= CString(src)
  {
    EntityInCString("http://", src);
  }

  lemma SlashIsPath(src: string)
    requires |src| > 7 && "http://" <= src && 7 <= |CString(src)|
    ensures var rest := CString(src)[7..]; IncludeOK(src) <==> Index(rest, '/') < |rest|
  {
    var p := CString(src);
    var rest := p[7..];
    if i {:trigger src[i]} :| 7 <= i < |src| && src[i] == '/' && '\0' !in src[..i] {
      assert i < |p|;
      assert rest[i - 7] == '/';
      assert Index(rest, '/') <= i - 7;
    }
    if Index(rest, '/') < |rest| {
      var i := 7 + Index(rest, '/');
      assert src[i] == p[i] == '/';
      assert src[..i] == p[..i];
      assert '\0' !in src[..i];
    }
  }

  lemma AbsoluteInclude(src: string, url: string, p: nat)
    requires |src| > 7 && "http://" <= src && 7 <= |CString(src)|
    requires p == 7 + Index(CString(src)[7..], '/')
    ensures p <= |src| && IncludeOf(src, url) == ("Host: " + src[7..p], Unescape(CString(src[p..])))
  {
    var c := CString(src);
    var rest := c[7..];
    assert rest[..p - 7] == src[7..p];
    assert rest[p - 7..] == c[p..];
    CStringFrom(src, p);
  }

  lemma RelativeInclude(src: string, url: string)
    requires !(|src| > 7 && "http://" <= src)
    ensures IncludeOK(src)
    ensures IncludeOf(src, url) ==
      if CharAt(src, 0) == '/' then ("", Unescape(CString(src)))
      else ("", CString(UrlDir(url)) + "/" + Unescape(CString(src)))
  {
  }

  lemma Encoded(src: string, url: string, host: string, path: string, vsb: string)
    requires IncludeOf(src, url) == (host, path) && vsb == [VEC_INCL] + host + ['\0'] + path + ['\0']
    ensures vsb == Encode(Include(src, url))
  {
  }

  /** vep_do_include for a tag: what it appends is the code of the include; `ok` is the assertion that an
      absolute include has a path. */
  method DoInclude(src: string, url: string) returns (ok: bool, vsb: string)
    ensures ok <==> IncludeOK(src)
    ensures ok ==> vsb == Encode(Include(src, url))
  {
    hide Unescape, CString, UrlDir, Index, IncludeOf, IncludeOK, Encode;
    vsb := [VEC_INCL];
    var p: nat := 0;
    ghost var host, pre := "", "";
    if |src| > 7 && src[..7] == "http://" {
      HttpIsNoNul(src);
      var q := FindSlash(src, 7);
      SlashIsPath(src);
      if q.None? { return false, vsb; }
      p := q.value;
      AbsoluteInclude(src, url, p);
      host := "Host: " + src[7..p];
      vsb := vsb + "Host: " + src[7..p] + ['\0'];
      assert vsb == [VEC_INCL] + host + ['\0'] + pre;
    } else {
      assert src[0..] == src;
      RelativeInclude(src, url);
      vsb := vsb + ['\0'];
      if CharAt(src, 0) != '/' {
        var dir := Directory(url);
        pre := CString(dir) + "/";
        vsb := vsb + CString(dir) + "/";
      }
      assert vsb == [VEC_INCL] + host + ['\0'] + pre;
    }
    vsb := AppendPath(vsb, src, p);
    ghost var path := Unescape(CString(src[p..]));
    Assoc([VEC_INCL] + host + ['\0'], pre, path);
    if pre == "" { assert pre + path == path; }
    vsb := vsb + ['\0'];
    Encoded(src, url, host, pre + path, vsb);
    ok := true;
  }
}
