/** Chunked bodies as other programs write them: sizes in either case, with blanks and zeros around, and line ends
    with or without a carriage return. */
module ChunkForms {
  import opened Vct
  import opened Wrappers
  import opened Seqs
  import opened Endian
  import opened Hex
  import opened ChunkReader
  import opened ChunkWriter

  function LowerHex(c: char): char { if 'A' <= c <= 'F' then c + 32 as char else c }

  /** The same digits, each in either case. */
  predicate SameDigits(s: string, t: string) {
    |s| == |t| && forall i :: 0 <= i < |s| ==> LowerHex(s[i]) == LowerHex(t[i])
  }

  /** A number reads the same in capitals, small letters and a mixture of them. */
  lemma {:induction false} NumberAnyCase(s: string, t: string)
    requires SameDigits(s, t) && AllHex(t)
    ensures AllHex(s) && Hex.Number(s) == Hex.Number(t)
  {
    forall i | 0 <= i < |s| ensures IsHex(s[i]) && Value(s[i]) == Value(t[i]) { SameValue(s[i], t[i]); }
    if s != [] { NumberAnyCase(s[..|s| - 1], t[..|t| - 1]); }
  }

  lemma SameValue(c: char, d: char)
    requires LowerHex(c) == LowerHex(d) && IsHex(d)
    ensures IsHex(c) && Value(c) == Value(d)
  {
  }

  predicate White(s: string) { forall i :: 0 <= i < |s| ==> IsLws(s[i]) }

  function Zeros(z: nat): (s: string)
    ensures |s| == z && forall i :: 0 <= i < z ==> s[i] == '0'
  {
    seq(z, _ => '0')
  }

  lemma {:induction false} WhiteSkipped(w: string, s: string)
    requires White(w) && (s != [] ==> !IsLws(s[0]))
    ensures SkipWhite(w + s) == s
  {
    if w == [] {
      assert w + s == s;
    } else {
      assert (w + s)[1..] == w[1..] + s;
      WhiteSkipped(w[1..], s);
    }
  }

  lemma {:induction false} BlankSkipped(b: string, rest: string)
    requires White(b) && '\n' !in b
    ensures SkipBlank(b + (['\n'] + rest)) == ['\n'] + rest
  {
    var s := ['\n'] + rest;
    if b == [] {
      assert b + s == s;
    } else {
      assert (b + s)[1..] == b[1..] + s;
      BlankSkipped(b[1..], rest);
    }
  }

  lemma {:induction false} ZerosDropped(z: nat, s: string)
    ensures Digits(['0'], Zeros(z) + s) == Digits(['0'], s)
  {
    if z == 0 {
      assert Zeros(0) + s == s;
    } else {
      assert (Zeros(z) + s)[0] == '0' && (Zeros(z) + s)[1..] == Zeros(z - 1) + s;
      ZerosDropped(z - 1, s);
    }
  }

  /** A line with a size: white space, zeros, digits and blanks. */
  function SizeLine(w: string, z: nat, t: string, b: string): string { w + (Zeros(z) + (t + (b + "\n"))) }

  /** Such a line reads as the number its digits spell. */
  lemma SizeLineReads(w: string, z: nat, t: string, b: string, n: nat, rest: string)
    requires White(w) && White(b) && '\n' !in b && 0 < n <= SSIZE_MAX && SameDigits(t, Hex.Hex(n))
    ensures Header(SizeLine(w, z, t, b) + rest) == Some((n, rest))
  {
    hide Header, Digits, FetchNumber, SkipWhite, SkipBlank, Zeros;
    var e := b + (['\n'] + rest);
    var s := Zeros(z) + (t + e);
    assert SizeLine(w, z, t, b) + rest == w + s;
    SizeDigits(n);
    NumberAnyCase(t, Hex.Hex(n));
    NumberOfHex(n);
    FirstDigit(t, n);
    EndIsNoDigit(b, rest);
    BlankSkipped(b, rest);
    var buf;
    if z == 0 { buf := SmallDigits(z, t, e, n); } else { buf := ZeroDigits(z, t, e, n); }
    WhiteSkipped(w, s);
    LineHas(w + s, s, buf, e, n, rest);
  }

  lemma SmallDigits(z: nat, t: string, e: string, n: nat) returns (buf: string)
    requires z == 0 && AllHex(t) && t != [] && t[0] != '0' && |t| <= 16 && Hex.Number(t) == n <= SSIZE_MAX
    requires e != [] && !IsHex(e[0])
    ensures var s := Zeros(z) + (t + e);
      && s != [] && !IsLws(s[0]) && buf != [] && |buf| < BUFSIZE && AllHex(buf[1..])
      && Digits([s[0]], s[1..]) == (buf, e) && FetchNumber(buf) == Some(n)
  {
    hide Digits, FetchNumber;
    buf := t;
    var s := Zeros(z) + (t + e);
    assert s == t + e && [t[0]] + t[1..] == t && s[1..] == t[1..] + e;
    HexIsNoWhite(t[0]);
    DigitsAll([t[0]], t[1..], e);
    NumberFetched(t, n);
  }

  lemma ZeroDigits(z: nat, t: string, e: string, n: nat) returns (buf: string)
    requires z > 0 && AllHex(t) && t != [] && t[0] != '0' && |t| <= 16 && Hex.Number(t) == n <= SSIZE_MAX
    requires e != [] && !IsHex(e[0])
    ensures var s := Zeros(z) + (t + e);
      && s != [] && !IsLws(s[0]) && buf != [] && |buf| < BUFSIZE && AllHex(buf[1..])
      && Digits([s[0]], s[1..]) == (buf, e) && FetchNumber(buf) == Some(n)
  {
    hide Digits, FetchNumber;
    buf := ['0'] + t;
    var s := Zeros(z) + (t + e);
    assert s[0] == '0' && s[1..] == Zeros(z - 1) + (t + e);
    ZerosDropped(z - 1, t + e);
    DigitsAll(['0'], t, e);
    LeadingZero(t);
    NumberFetched(buf, n);
  }

  lemma HexIsNoWhite(c: char)
    requires IsHex(c)
    ensures !IsLws(c) && !IsLws('0')
  {
  }

  lemma FirstDigit(t: string, n: nat)
    requires SameDigits(t, Hex.Hex(n)) && n > 0
    ensures t != [] && t[0] != '0'
  {
  }

  lemma EndIsNoDigit(b: string, rest: string)
    requires White(b)
    ensures var e := b + (['\n'] + rest); e != [] && !IsHex(e[0])
  {
  }

  lemma NumberFetched(buf: string, n: nat)
    requires buf != [] && AllHex(buf) && Hex.Number(buf) == n <= SSIZE_MAX
    ensures AllHex(buf[1..]) && FetchNumber(buf) == Some(n)
  {
  }

  lemma LineHas(s: string, a: string, buf: string, e: string, n: nat, rest: string)
    requires SkipWhite(s) == a && a != [] && buf != [] && |buf| < BUFSIZE && AllHex(buf[1..])
    requires Digits([a[0]], a[1..]) == (buf, e) && e != [] && SkipBlank(e) == ['\n'] + rest
    requires FetchNumber(buf) == Some(n)
    ensures Header(s) == Some((n, rest))
  {
    hide Digits, FetchNumber, SkipWhite, SkipBlank;
    assert (['\n'] + rest)[1..] == rest;
  }

  /** The line end behind the data of a chunk. */
  predicate LineEnd(s: string) { s == "\n" || s == "\r\n" }

  lemma EndReads(end: string, rest: string)
    requires LineEnd(end)
    ensures Tail(end + rest) == Some(rest)
  {
    assert (end + rest)[|end|..] == rest;
  }

  /** A chunk in any such form is read as its data, and reading goes on behind it. */
  lemma ChunkReadsAnyForm(w: string, z: nat, t: string, b: string, d: string, end: string, rest: string)
    requires White(w) && White(b) && '\n' !in b && 0 < |d| <= SSIZE_MAX && SameDigits(t, Hex.Hex(|d|)) && LineEnd(end)
    ensures ReadChunked(SizeLine(w, z, t, b) + (d + (end + rest)))
      == var r := ReadChunked(rest); Fetched(r.ok, d + r.body, r.rest)
  {
    hide Header, Tail, SizeLine;
    var after := d + (end + rest);
    SizeLineReads(w, z, t, b, |d|, after);
    EndReads(end, rest);
    assert after[..|d|] == d && after[|d|..] == end + rest;
    ReadFrom(SizeLine(w, z, t, b) + after, |d|, after);
  }
}
