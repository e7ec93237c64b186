/** Header names in the form http_GetHdr takes them. */
module HttpHeader {
  /** Length of the name and its colon, name, colon, terminator. */
  function HdrSpec(name: string): string
    requires |name| + 1 < 256
  {
    [(|name| + 1) as char] + (name + [':', '\0'])
  }

  lemma SameHdr(a: string, b: string)
    requires |a| + 1 < 256 && |b| + 1 < 256
    ensures HdrSpec(a) == HdrSpec(b) <==> a == b
  {
    var s, t := HdrSpec(a), HdrSpec(b);
    if s == t {
      assert s[0] == t[0] && s[1..1 + |a|] == a && t[1..1 + |b|] == b;
    }
  }
}
