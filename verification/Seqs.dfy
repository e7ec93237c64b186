/** Sequences of sequences, put one after another. */
module Seqs {
  function Flat<T>(ss: seq<seq<T>>): seq<T> {
    if ss == [] then [] else ss[0] + Flat(ss[1..])
  }

  lemma {:induction false} FlatJoin<T>(a: seq<seq<T>>, b: seq<seq<T>>)
    ensures Flat(a + b) == Flat(a) + Flat(b)
  {
    if a == [] {
      assert a + b == b;
    } else {
      assert (a + b)[1..] == a[1..] + b;
      FlatJoin(a[1..], b);
    }
  }

  lemma FlatSnoc<T>(ss: seq<seq<T>>, s: seq<T>)
    ensures Flat(ss + [s]) == Flat(ss) + s
  {
    FlatJoin(ss, [s]);
    assert [s][1..] == [] && Flat([s]) == s;
  }

  lemma FlatFront<T>(ss: seq<seq<T>>, n: nat)
    requires n < |ss|
    ensures Flat(ss[..n + 1]) == Flat(ss[..n]) + ss[n]
  {
    assert ss[..n + 1] == ss[..n] + [ss[n]];
    FlatSnoc(ss[..n], ss[n]);
  }

  lemma Assoc<T>(a: seq<T>, b: seq<T>, c: seq<T>)
    ensures a + (b + c) == (a + b) + c
  {
  }
}
