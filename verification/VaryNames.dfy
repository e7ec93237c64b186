/** Lists of header names as Vary has them, and values without the blanks behind them. */
module VaryNames {
  import opened Vct
  import opened Vary
  import opened VaryMatch

  predicate Blank(s: string) { forall i :: 0 <= i < |s| ==> IsSp(s[i]) }

  // ---- values ----

  /** A trimmed value is the value up to its last character that is no blank. */
  lemma {:induction false} TrimIs(s: string)
    ensures Trim(s) <= s && Blank(s[|Trim(s)|..]) && (Trim(s) != [] ==> !IsSp(Trim(s)[|Trim(s)| - 1]))
  {
    if s != [] && IsSp(s[|s| - 1]) {
      var t := s[..|s| - 1];
      TrimIs(t);
      assert s[|Trim(s)|..] == t[|Trim(s)|..] + [s[|s| - 1]];
    }
  }

  lemma {:induction false} TrimTakes(u: string, blanks: string)
    requires Blank(blanks) && (u != [] ==> !IsSp(u[|u| - 1]))
    ensures Trim(u + blanks) == u
  {
    if blanks == [] {
      assert u + blanks == u;
    } else {
      var b := blanks[..|blanks| - 1];
      assert (u + blanks)[..|u + blanks| - 1] == u + b;
      TrimTakes(u, b);
    }
  }

  // ---- names ----

  /** A name with the blanks around it. */
  datatype Item = Item(pre: string, name: string, post: string)

  predicate GoodItem(x: Item) {
    && Blank(x.pre) && Blank(x.post) && x.name != []
    && forall i :: 0 <= i < |x.name| ==> !IsSp(x.name[i]) && x.name[i] != ','
  }

  predicate GoodItems(xs: seq<Item>) { forall i :: 0 <= i < |xs| ==> GoodItem(xs[i]) }

  function ItemText(x: Item): string { x.pre + (x.name + x.post) }

  /** The list, with commas between. */
  function ListText(xs: seq<Item>): string {
    if xs == [] then "" else if |xs| == 1 then ItemText(xs[0]) else ItemText(xs[0]) + ("," + ListText(xs[1..]))
  }

  function NamesOf(xs: seq<Item>): seq<string> {
    if xs == [] then [] else [xs[0].name] + NamesOf(xs[1..])
  }

  lemma {:induction false} BlanksSkipped(b: string, s: string)
    requires Blank(b)
    ensures Names(b + s) == Names(s)
  {
    if b == [] {
      assert b + s == s;
    } else {
      NamesOn(b + s);
      assert (b + s)[1..] == b[1..] + s;
      BlanksSkipped(b[1..], s);
    }
  }

  lemma {:induction false} SkipsBlanks(b: string, s: string)
    requires Blank(b) && (s != [] ==> !IsSp(s[0]))
    ensures SkipSp(b + s) == s
  {
    if b == [] {
      assert b + s == s;
    } else {
      assert (b + s)[1..] == b[1..] + s;
      SkipsBlanks(b[1..], s);
    }
  }

  lemma {:induction false} TokenTakes(n: string, s: string)
    requires forall i :: 0 <= i < |n| ==> !IsSp(n[i]) && n[i] != ','
    requires s != [] ==> IsSp(s[0]) || s[0] == ','
    ensures Token(n + s) == n
  {
    if n == [] {
      assert n + s == s;
    } else {
      assert (n + s)[0] == n[0] && (n + s)[1..] == n[1..] + s;
      TokenTakes(n[1..], s);
    }
  }

  /** One name, and what follows it: nothing, a comma and the rest, or something that has no business there. */
  lemma OneName(x: Item, s: string)
    requires GoodItem(x) && (s != [] ==> !IsSp(s[0])) && (x.post == [] && s != [] ==> s[0] == ',')
    ensures Names(ItemText(x) + s) ==
      if s == [] then ([x.name], true)
      else if s[0] != ',' then ([x.name], false)
      else ([x.name] + Names(s[1..]).0, Names(s[1..]).1)
  {
    var t := x.name + (x.post + s);
    assert ItemText(x) + s == x.pre + t;
    BlanksSkipped(x.pre, t);
    assert t[0] == x.name[0];
    TokenTakes(x.name, x.post + s);
    assert t[|x.name|..] == x.post + s;
    SkipsBlanks(x.post, s);
    NamesOn(t);
    if s == [] { NoNamesLeft(); }
  }

  lemma NoNamesLeft()
    ensures Names([]) == ([], true)
  {
  }

  /** The names of a list come out as they went in, whatever blanks are around them. */
  lemma {:induction false} NamesRead(xs: seq<Item>)
    requires GoodItems(xs)
    ensures Names(ListText(xs)) == (NamesOf(xs), true)
  {
    if xs == [] {
      NoNamesLeft();
    } else if |xs| == 1 {
      assert ItemText(xs[0]) + [] == ItemText(xs[0]);
      OneName(xs[0], []);
      assert xs[1..] == [] && [xs[0].name] + [] == [xs[0].name];
      assert NamesOf(xs) == [xs[0].name] + NamesOf([]);
    } else {
      var s := "," + ListText(xs[1..]);
      assert s[1..] == ListText(xs[1..]);
      OneName(xs[0], s);
      NamesRead(xs[1..]);
    }
  }

  /** Two names without a comma between are an error, found behind the first of them. */
  lemma {:induction false} MissingComma(xs: seq<Item>, y: Item, z: string)
    requires GoodItems(xs) && GoodItem(y) && y.post != [] && z != [] && !IsSp(z[0]) && z[0] != ','
    ensures Names(Broken(xs, y, z)) == (NamesOf(xs) + [y.name], false)
  {
    hide Names, ItemText;
    if xs == [] {
      OneName(y, z);
      assert [] + [y.name] == [y.name];
    } else {
      var rest := Broken(xs[1..], y, z);
      MissingComma(xs[1..], y, z);
      assert ("," + rest)[1..] == rest;
      OneName(xs[0], "," + rest);
      assert [xs[0].name] + (NamesOf(xs[1..]) + [y.name]) == NamesOf(xs) + [y.name];
    }
  }

  /** A list that goes on without a comma behind `y`. */
  function Broken(xs: seq<Item>, y: Item, z: string): string {
    if xs == [] then ItemText(y) + z else ItemText(xs[0]) + ("," + Broken(xs[1..], y, z))
  }
}
