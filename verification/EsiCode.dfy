/** The byte form of ESI instructions: what the parser writes and the deliverer reads. */
module EsiCode {
  import opened Wrappers
  import opened EsiMarks
  import opened EsiStep
  import opened Endian

  // ---- lengths ----

  const VEC_V: nat := 0x40
  const VEC_S: nat := 0x60
  const VEC_INCL: char := 'I'

  /** vep_emit_len: the code tells the width of the length. */
  function EmitLen(l: nat, vec: nat): (s: string)
    requires vec == VEC_V || vec == VEC_S
    ensures |s| > 0
  {
    if l < 256 then [(vec + 1) as char] + BigEndian(l, 1)
    else if l < 65536 then [(vec + 2) as char] + BigEndian(l, 2)
    else [(vec + 8) as char] + BigEndian(l, 8)
  }

  /** ved_decode_len: the length at the front of `s` and the bytes it takes; None for a code without a
      width or a length of zero, where it gives up. */
  function DecodeLen(s: string): (r: Option<(nat, nat)>)
    ensures r.Some? ==> 1 < r.value.1 <= |s| && r.value.0 > 0
  {
    if s == [] then None
    else
      var w := (s[0] as nat) % 16;
      if (w != 1 && w != 2 && w != 8) || |s| < w + 1 then None
      else
        var l := Number(s[1..w + 1]);
        if l == 0 then None else Some((l, w + 1))
  }

  /** Every length the parser can emit decodes to itself, whatever follows it. */
  lemma DecodeEmitted(l: nat, vec: nat, rest: string)
    requires 0 < l <= SSIZE_MAX && (vec == VEC_V || vec == VEC_S)
    ensures DecodeLen(EmitLen(l, vec) + rest) == Some((l, |EmitLen(l, vec)|))
  {
    Powers();
    if l < 256 { DecodeWidth(l, vec, 1, rest); }
    else if l < 65536 { DecodeWidth(l, vec, 2, rest); }
    else { DecodeWidth(l, vec, 8, rest); }
  }

  lemma DecodeWidth(l: nat, vec: nat, w: nat, rest: string)
    requires 0 < l < Pow256(w) && (w == 1 || w == 2 || w == 8) && (vec == VEC_V || vec == VEC_S)
    ensures DecodeLen([(vec + w) as char] + BigEndian(l, w) + rest) == Some((l, w + 1))
  {
    NumberOfBigEndian(l, w);
    DecodeDigits((vec + w) as char, w, BigEndian(l, w), rest);
  }

  lemma DecodeDigits(c: char, w: nat, digits: string, rest: string)
    requires (c as nat) % 16 == w && (w == 1 || w == 2 || w == 8) && |digits| == w && Number(digits) > 0
    ensures DecodeLen([c] + digits + rest) == Some((Number(digits), w + 1))
  {
    var s := [c] + digits + rest;
    assert s[0] == c && s[1..w + 1] == digits;
  }

  // ---- includes ----

  /** The part of `s` before its first NUL. */
  function CString(s: string): (r: string)
    ensures |r| <= |s| && r == s[..|r|] && '\0' !in r
    ensures |r| < |s| ==> s[|r|] == '\0'
  {
    if s == [] || s[0] == '\0' then [] else [s[0]] + CString(s[1..])
  }

  /** The index of the first `c` in `s`, or its length. */
  function Index(s: string, c: char): (i: nat)
    ensures i <= |s| && c !in s[..i] && (i < |s| ==> s[i] == c)
  {
    if s == [] || s[0] == c then 0 else 1 + Index(s[1..], c)
  }

  /** The index of the last `c` in `s`, if any. */
  function LastIndex(s: string, c: char): (i: Option<nat>)
    ensures i.Some? ==> i.value < |s| && s[i.value] == c && c !in s[i.value + 1..]
    ensures i.None? ==> c !in s
  {
    if s == [] then None
    else if s[|s| - 1] == c then Some(|s| - 1)
    else LastIndex(s[..|s| - 1], c)
  }

  /** The five XML entities are replaced; everything else is copied. */
  function Unescape(s: string): (r: string)
    ensures '\0' !in s ==> '\0' !in r
  {
    if s == [] then []
    else if "&apos;" <= s then ['\''] + Unescape(s[6..])
    else if "&quot;" <= s then ['"'] + Unescape(s[6..])
    else if "&lt;" <= s then ['<'] + Unescape(s[4..])
    else if "&gt;" <= s then ['>'] + Unescape(s[4..])
    else if "&amp;" <= s then ['&'] + Unescape(s[5..])
    else [s[0]] + Unescape(s[1..])
  }

  /** The directory of the request URL: what precedes the last slash before any '?'; without a slash,
      everything up to and including the '?'. */
  function UrlDir(url: string): string {
    var i := Index(url, '?');
    match LastIndex(url[..i], '/')
    case Some(h) => url[..h]
    case None => if i < |url| then url[..i + 1] else url
  }

  /** The host header and URL of an include. */
  function IncludeOf(src: string, url: string): (string, string) {
    var p := CString(src);
    if |src| > 7 && "http://" <= src then
      var rest := if |p| < 7 then "" else p[7..];
      var slash := Index(rest, '/');
      ("Host: " + rest[..slash], Unescape(rest[slash..]))
    else if p != "" && p[0] == '/' then ("", Unescape(p))
    else ("", CString(UrlDir(url)) + "/" + Unescape(p))
  }

  lemma IncludeHasNoNul(src: string, url: string)
    ensures var (host, path) := IncludeOf(src, url); '\0' !in host && '\0' !in path
  {
  }

  // ---- instructions ----

  function Encode(i: Instr): (s: string)
    ensures |s| > 0
  {
    match i
    case Verbatim(n) => EmitLen(n, VEC_V)
    case Skip(n) => EmitLen(n, VEC_S)
    case Include(src, url) =>
      var (host, path) := IncludeOf(src, url);
      [VEC_INCL] + host + ['\0'] + path + ['\0']
  }

  function EncodeAll(code: seq<Instr>): string {
    if code == [] then [] else Encode(code[0]) + EncodeAll(code[1..])
  }

  /** What the deliverer sends: bytes of the body, and included documents. */
  datatype Out = Byte(c: char) | Child(host: string, path: string)

  function Bytes(s: string): seq<Out> {
    seq(|s|, i requires 0 <= i < |s| => Byte(s[i]))
  }

  /** The storage bytes the instructions account for, from the front. */
  function Span(code: seq<Instr>): nat {
    if code == [] then 0 else Width(code[0]) + Span(code[1..])
  }

  function Width(i: Instr): nat {
    match i
    case Verbatim(n) => n
    case Skip(n) => n
    case Include(_, _) => 0
  }

  /** What instructions mean for a body. */
  function Render(code: seq<Instr>, body: string): seq<Out>
    requires Span(code) <= |body|
  {
    if code == [] then []
    else
      var rest := Render(code[1..], body[Width(code[0])..]);
      match code[0]
      case Verbatim(n) => Bytes(body[..n]) + rest
      case Skip(n) => rest
      case Include(src, url) =>
        var (host, path) := IncludeOf(src, url);
        [Child(host, path)] + rest
  }

  /** Lengths are positive and fit a signed size. */
  ghost predicate Sendable(code: seq<Instr>) {
    forall i :: 0 <= i < |code| ==> !code[i].Include? ==> 0 < Width(code[i]) <= SSIZE_MAX
  }
}
