/** Delivering an object while it is fetched: polls that send what has come since, over segments that grow
    and, for pass objects, go as soon as they are sent. */
module Stream {
  import opened ChunkReader

  lemma ContentsAt(store: seq<Segment>, i: nat)
    requires i < |store|
    ensures Contents(store[..i + 1]) == Contents(store[..i]) + store[i].data
  {
    assert store[..i + 1][..i] == store[..i];
  }

  lemma {:induction false} ContentsFront(store: seq<Segment>)
    requires store != []
    ensures Contents(store) == store[0].data + Contents(store[1..])
  {
    if |store| == 1 {
      assert Contents(store[..0]) == [] && Contents(store[1..]) == [];
      assert [] + store[0].data == store[0].data + [];
    } else {
      var init := store[..|store| - 1];
      ContentsFront(init);
      assert init[1..] == store[1..][..|store| - 2];
      assert (store[0].data + Contents(init[1..])) + store[|store| - 1].data
        == store[0].data + (Contents(init[1..]) + store[|store| - 1].data);
    }
  }

  lemma {:induction false} PartOf(store: seq<Segment>, i: nat)
    requires i <= |store|
    ensures |Contents(store[..i])| <= |Contents(store)|
    ensures Contents(store)[..|Contents(store[..i])|] == Contents(store[..i])
  {
    if i == |store| {
      assert store[..i] == store;
    } else {
      PartOf(store[..|store| - 1], i);
      assert store[..|store| - 1][..i] == store[..i];
    }
  }

  lemma NewSegment(store: seq<Segment>, space: nat)
    requires StoreOK(store) && (store == [] || |store[|store| - 1].data| == store[|store| - 1].space)
    ensures StoreOK(store + [Segment([], space)]) && Contents(store + [Segment([], space)]) == Contents(store)
  {
    assert (store + [Segment([], space)])[..|store|] == store && Contents(store) + [] == Contents(store);
  }

  lemma FillLast(store: seq<Segment>, d: string)
    requires StoreOK(store) && store != [] && |store[|store| - 1].data| + |d| <= store[|store| - 1].space
    ensures var st := store[|store| - 1];
      var store' := store[|store| - 1 := Segment(st.data + d, st.space)];
      StoreOK(store') && Contents(store') == Contents(store) + d
  {
    var st := store[|store| - 1];
    var store' := store[|store| - 1 := Segment(st.data + d, st.space)];
    assert store'[..|store| - 1] == store[..|store| - 1];
    assert Contents(store[..|store| - 1]) + (st.data + d) == Contents(store) + d;
  }

  lemma Grown(body: string, d: string, f: nat, n: nat)
    requires f <= |body| && n <= |body|
    ensures (body + d)[f..] == body[f..] + d && (body + d)[..n] == body[..n]
  {
  }

  lemma Sent(body: string, a: nat, b: nat)
    requires a <= b <= |body|
    ensures body[..a] + body[a..b] == body[..b]
  {
  }

  /** A piece of the part of a string from `f` on. */
  lemma Slice(body: string, f: nat, c: string, a: string, d: string, at: nat)
    requires f <= |body| && body[f..] == c && |a| + |d| <= |c| && c[..|a| + |d|] == a + d && at <= |d|
    ensures f + |a| + |d| <= |body| && d[at..] == body[f + |a| + at..f + |a| + |d|]
  {
    forall k | at <= k < |d| ensures d[k] == body[f + |a| + k] {
      assert (a + d)[|a| + k] == c[..|a| + |d|][|a| + k] == body[f..][|a| + k];
    }
  }

  /** An object in delivery. `wire` is what went to the client, `body` all that was fetched. */
  class StreamObj {
    var store: seq<Segment>
    var len: nat
    var stream_next: nat
    var stream_front: nat
    const pass: bool
    var wire: string
    ghost var body: string

    ghost predicate Valid() reads this {
      && StoreOK(store) && len == |body| && stream_front <= stream_next <= len
      && body[stream_front..] == Contents(store)
      && wire == body[..stream_next]
      && (!pass ==> stream_front == 0)
    }

    constructor (pass: bool)
      ensures Valid() && body == [] && this.pass == pass
    {
      store, len, stream_next, stream_front, this.pass, wire, body := [], 0, 0, 0, pass, [], [];
    }

    /** The room FetchStorage finds or makes. */
    function Room(chunksize: nat): nat
      requires StoreOK(store)
      reads this
    {
      if store == [] || |store[|store| - 1].data| == store[|store| - 1].space then chunksize
      else store[|store| - 1].space - |store[|store| - 1].data|
    }

    /** FetchStorage. */
    method FetchStorage(chunksize: nat)
      requires Valid() && chunksize > 0
      modifies this`store
      ensures Valid() && store != []
      ensures store[|store| - 1].space == |store[|store| - 1].data| + old(Room(chunksize))
    {
      if store == [] || |store[|store| - 1].data| == store[|store| - 1].space {
        NewSegment(store, chunksize);
        store := store + [Segment([], chunksize)];
      }
    }

    /** What a read put into the last segment. */
    method Grow(d: string)
      requires Valid() && store != [] && |store[|store| - 1].data| + |d| <= store[|store| - 1].space
      modifies this
      ensures Valid() && body == old(body) + d && stream_next == old(stream_next) && wire == old(wire)
    {
      FillLast(store, d);
      Grown(body, d, stream_front, stream_next);
      hide Contents, StoreOK;
      var st := store[|store| - 1];
      store := store[|store| - 1 := Segment(st.data + d, st.space)];
      len := len + |d|;
      body := body + d;
    }

    /** One segment in the loop of RES_StreamPoll: what of it was not sent is sent. */
    method SendSegment(i: nat, l: nat)
      requires Valid() && i < |store| && l == stream_front + |Contents(store[..i])| && l <= stream_next
      modifies this`stream_next, this`wire
      ensures Valid() && l + |store[i].data| <= stream_next && stream_next >= old(stream_next)
    {
      var st := store[i];
      if |st.data| + l > stream_next {
        var l2 := |st.data| + l - stream_next;
        var at := stream_next - l;
        SegmentOfBody(i, at);
        hide Contents, StoreOK;
        Sent(body, stream_next, stream_next + l2);
        assert st.data[at..at + l2] == st.data[at..];
        wire := wire + st.data[at..at + l2];
        stream_next := stream_next + l2;
      }
    }

    /** The loop of RES_StreamPoll: skip what was sent, send the rest segment by segment. */
    method Send()
      requires Valid()
      modifies this`stream_next, this`wire
      ensures Valid() && wire == body && stream_next == len
    {
      var l, i := stream_front, 0;
      assert store[..0] == [] && Contents([]) == [];
      hide Contents, StoreOK;
      while i < |store|
        invariant i <= |store| && Valid() && l == stream_front + |Contents(store[..i])| && l <= stream_next
      {
        ContentsAt(store, i);
        SendSegment(i, l);
        l := l + |store[i].data|;
        i := i + 1;
      }
      assert store[..|store|] == store && body[..len] == body;
    }

    lemma SegmentOfBody(i: nat, at: nat)
      requires Valid() && i < |store| && at <= |store[i].data|
      ensures var l := stream_front + |Contents(store[..i])|;
        l + |store[i].data| <= |body| && store[i].data[at..] == body[l + at..l + |store[i].data|]
    {
      ContentsAt(store, i);
      PartOf(store, i + 1);
      hide Contents, StoreOK;
      Slice(body, stream_front, Contents(store), Contents(store[..i]), store[i].data, at);
    }

    /** The loop that frees what a pass object has sent. */
    method Free()
      requires Valid() && stream_next == len && pass
      modifies this`store, this`stream_front
      ensures Valid() && store == [] && stream_front == len
    {
      while store != [] && stream_front + |store[0].data| <= stream_next
        invariant Valid()
        decreases |store|
      {
        ContentsFront(store);
        ghost var was, front := store, stream_front;
        stream_front := stream_front + |store[0].data|;
        store := store[1..];
        assert body[stream_front..] == body[front..][|was[0].data|..];
      }
      if store != [] { ContentsFront(store); }
    }

    /** RES_StreamPoll without gunzipping: each byte fetched so far has been sent once and in order. */
    method StreamPoll()
      requires Valid()
      modifies this`stream_next, this`wire, this`store, this`stream_front
      ensures Valid() && wire == body && stream_next == len
      ensures !pass ==> store == old(store)
    {
      if len == stream_next {
        assert body[..stream_next] == body;
        return;
      }
      Send();
      if pass { Free(); }
    }

    /** One turn of vfp_nop_bytes while streaming: a read into the last segment, and a poll. */
    method ReadAndPoll(htc: HttpConn, left: nat, chunksize: nat) returns (d: string)
      requires Valid() && chunksize > 0 && wire == body && left > 0
      modifies this, htc
      ensures Valid() && wire == body == old(body) + d && |d| <= left
      ensures old(htc.input) == d + htc.input && (d == [] <==> old(htc.input) == [])
    {
      FetchStorage(chunksize);
      var st := store[|store| - 1];
      var l := st.space - |st.data|;
      if l > left { l := left; }
      d := htc.Read(l);
      hide Contents, StoreOK;
      if d == [] {
        assert body + [] == body;
        return;
      }
      Grow(d);
      StreamPoll();
    }

    /** vfp_nop_bytes while streaming: however the bytes arrive, all of them have gone to the client, once and
        in order. */
    method Bytes(htc: HttpConn, bytes: nat, chunksize: nat) returns (i: int)
      requires Valid() && chunksize > 0 && wire == body
      modifies this, htc
      ensures Valid() && (i == 1 || i == 0) && (i == 1 <==> |old(htc.input)| >= bytes)
      ensures wire == body == old(body) + old(htc.input)[..if i == 1 then bytes else |old(htc.input)|]
    {
      hide Contents, StoreOK;
      var left: int := bytes;
      ghost var got := "";
      assert body + got == body && got + htc.input == htc.input;
      while left > 0
        invariant Valid() && wire == body && 0 <= left && left + |got| == bytes
        invariant old(htc.input) == got + htc.input && body == old(body) + got
        decreases left
      {
        var d := ReadAndPoll(htc, left, chunksize);
        if d == [] {
          assert old(htc.input)[..|got|] == got;
          return 0;
        }
        left := left - |d|;
        got := got + d;
      }
      assert old(htc.input)[..bytes] == got;
      i := 1;
    }
  }
}
