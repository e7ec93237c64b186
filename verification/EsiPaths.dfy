/** Which host and path an include asks for, and that escaping is undone. */
module EsiPaths {
  import opened Wrappers
  import opened Seqs
  import opened EsiCode

  // ---- entities ----

  /** A character as it is to be written in an attribute. */
  function Escaped(c: char): (r: string)
    ensures r != []
  {
    if c == '\'' then "&apos;" else if c == '"' then "&quot;" else if c == '<' then "&lt;"
    else if c == '>' then "&gt;" else if c == '&' then "&amp;" else [c]
  }

  function Escape(s: string): string { if s == [] then [] else Escaped(s[0]) + Escape(s[1..]) }

  /** One entity, or one character that begins none, is taken at a time. */
  lemma UnescapeOne(c: char, rest: string)
    ensures Unescape(Escaped(c) + rest) == [c] + Unescape(rest)
  {
    var e := Escaped(c);
    var s := e + rest;
    assert s[0] == e[0] && s[|e|..] == rest && s[..|e|] == e;
    if c == '\'' {
    } else if c == '"' {
      assert s[1] != "&apos;"[1];
    } else if c == '<' {
      assert s[1] != "&apos;"[1] && s[1] != "&quot;"[1];
    } else if c == '>' {
      assert s[1] != "&apos;"[1] && s[1] != "&quot;"[1] && s[1] != "&lt;"[1];
    } else if c == '&' {
      assert s[2] != "&apos;"[2] && s[1] != "&quot;"[1] && s[1] != "&lt;"[1] && s[1] != "&gt;"[1];
    } else {
      assert "&apos;"[0] == "&quot;"[0] == "&lt;"[0] == "&gt;"[0] == "&amp;"[0] == '&';
    }
  }

  /** A path that was escaped comes out as it was. */
  lemma {:induction false} UnescapeEscape(s: string)
    ensures Unescape(Escape(s)) == s
  {
    if s != [] {
      UnescapeOne(s[0], Escape(s[1..]));
      UnescapeEscape(s[1..]);
    }
  }

  /** And so does one that needs no escaping. */
  lemma {:induction false} UnescapePlain(s: string)
    requires '&' !in s
    ensures Unescape(s) == s
  {
    if s != [] {
      assert "&apos;"[0] == "&quot;"[0] == "&lt;"[0] == "&gt;"[0] == "&amp;"[0] == '&' != s[0];
      UnescapePlain(s[1..]);
    }
  }

  // ---- hosts and paths ----

  lemma {:induction false} WholeCString(s: string)
    requires '\0' !in s
    ensures CString(s) == s
  {
    if s != [] { WholeCString(s[1..]); }
  }

  lemma IndexIs(s: string, c: char, i: nat)
    requires i <= |s| && c !in s[..i] && (i < |s| ==> s[i] == c)
    ensures Index(s, c) == i
  {
  }

  lemma {:induction false} LastIndexIs(s: string, c: char, i: nat)
    requires i < |s| && s[i] == c && c !in s[i + 1..]
    ensures LastIndex(s, c) == Some(i)
  {
    if i < |s| - 1 {
      assert s[|s| - 1] in s[i + 1..];
      var front := s[..|s| - 1];
      forall k | i + 1 <= k < |front| ensures front[k] != c { assert s[k] in s[i + 1..]; }
      LastIndexIs(front, c, i);
    }
  }

  /** An absolute include names its host; the path begins at the first slash behind it. */
  lemma AbsoluteInclude(host: string, path: string, url: string)
    requires '/' !in host && path != [] && path[0] == '/' && '\0' !in host && '\0' !in path
    ensures IncludeOf("http://" + host + path, url) == ("Host: " + host, Unescape(path))
  {
    hide Unescape, CString, Index, LastIndex, UrlDir;
    var src := "http://" + host + path;
    WholeCString(src);
    var rest := src[7..];
    assert rest == host + path;
    IndexIs(rest, '/', |host|);
  }

  /** A rooted include goes to the host of the request. */
  lemma RootedInclude(src: string, url: string)
    requires src != [] && src[0] == '/' && '\0' !in src
    ensures IncludeOf(src, url) == ("", Unescape(src))
  {
    WholeCString(src);
    assert "http://"[0] != '/';
  }

  /** A relative one is looked for beside the document, whatever the query of the request. */
  lemma RelativeInclude(src: string, dir: string, file: string, query: string)
    requires src != [] && src[0] != '/' && !("http://" <= src) && '\0' !in src && '\0' !in dir
    requires '/' !in file && '?' !in dir && '?' !in file && (query != [] ==> query[0] == '?')
    ensures IncludeOf(src, dir + "/" + file + query) == ("", dir + "/" + Unescape(src))
  {
    var url, front := dir + "/" + file + query, dir + "/" + file;
    WholeCString(src);
    WholeCString(dir);
    assert url[..|front|] == front;
    IndexIs(url, '?', |front|);
    assert front[|dir| + 1..] == file;
    LastIndexIs(front, '/', |dir|);
    assert url[..|dir|] == dir;
  }

  /** When the request has no slash before its query, what precedes the include is all of it, the question mark
      with it. */
  lemma NoDirectory(src: string, file: string, query: string)
    requires src != [] && src[0] != '/' && !("http://" <= src) && '\0' !in src && '\0' !in file
    requires '/' !in file && '?' !in file && (query != [] ==> query[0] == '?')
    ensures IncludeOf(src, file + query)
      == ("", file + (if query == [] then "" else "?") + "/" + Unescape(src))
  {
    hide Unescape, CString, UrlDir;
    WholeCString(src);
    NoSlashDir(file, query);
    WholeCString(UrlDir(file + query));
  }

  lemma NoSlashDir(file: string, query: string)
    requires '/' !in file && '?' !in file && (query != [] ==> query[0] == '?')
    ensures UrlDir(file + query) == file + if query == [] then "" else "?"
  {
    hide Index, LastIndex;
    var url := file + query;
    assert url[..|file|] == file;
    IndexIs(url, '?', |file|);
    NoLastIndex(file);
    if query != [] { assert url[..|file| + 1] == file + "?"; } else { assert url == file; }
  }

  lemma NoLastIndex(s: string)
    requires '/' !in s
    ensures LastIndex(s, '/') == None
  {
  }
}
