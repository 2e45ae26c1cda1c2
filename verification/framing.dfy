/** Cutting a client's byte stream into frames, and answering them. */
module Framing {
  import opened Bytes
  import opened Hub
  import opened Protocol

  /** The complete frames at the front of a stream, and the bytes behind them. */
  datatype Cut = Cut(bodies: seq<seq<Byte>>, rest: seq<Byte>)

  predicate Whole(s: seq<Byte>) {
    |s| >= 4 && |s| >= 4 + FromLE(s[..4])
  }

  function First(s: seq<Byte>): seq<Byte>
    requires Whole(s)
  {
    s[4..4 + FromLE(s[..4])]
  }

  function Behind(s: seq<Byte>): (r: seq<Byte>)
    requires Whole(s)
    ensures |r| < |s|
  {
    s[4 + FromLE(s[..4])..]
  }

  function Split(s: seq<Byte>): Cut
    decreases |s|
  {
    if !Whole(s) then Cut([], s)
    else var t := Split(Behind(s)); Cut([First(s)] + t.bodies, t.rest)
  }

  function Stream(bodies: seq<seq<Byte>>): seq<Byte> {
    if bodies == [] then [] else Framed(bodies[0]) + Stream(bodies[1..])
  }

  function Concat(chunks: seq<seq<Byte>>): seq<Byte> {
    if chunks == [] then [] else chunks[0] + Concat(chunks[1..])
  }

  /** A complete frame stays complete when more bytes come in. */
  lemma WholeMore(a: seq<Byte>, b: seq<Byte>)
    requires Whole(a)
    ensures Whole(a + b) && First(a + b) == First(a) && Behind(a + b) == Behind(a) + b
  {
    assert (a + b)[..4] == a[..4];
  }

  /** Bytes that arrive later only add frames. */
  lemma {:induction false} SplitMore(a: seq<Byte>, b: seq<Byte>)
    ensures
      var t := Split(Split(a).rest + b);
      Split(a + b) == Cut(Split(a).bodies + t.bodies, t.rest)
    decreases |a|
  {
    if Whole(a) {
      WholeMore(a, b);
      SplitMore(Behind(a), b);
    }
  }

  /** A frame at the front of a stream is cut off whole. */
  lemma FramedFirst(body: seq<Byte>, rest: seq<Byte>)
    requires |body| < U32
    ensures Whole(Framed(body) + rest) && First(Framed(body) + rest) == body && Behind(Framed(body) + rest) == rest
  {
    Word32(|body|);
    assert (Framed(body) + rest)[..4] == LE(|body|, 4);
  }

  /** Cutting inverts framing. */
  lemma {:induction false} SplitStream(bodies: seq<seq<Byte>>)
    requires forall b | b in bodies :: |b| < U32
    ensures Split(Stream(bodies)) == Cut(bodies, [])
  {
    if bodies != [] {
      FramedFirst(bodies[0], Stream(bodies[1..]));
      SplitStream(bodies[1..]);
    }
  }

  lemma FirstFramed(s: seq<Byte>)
    requires Whole(s)
    ensures s == Framed(First(s)) + Behind(s)
  {
    FromLERoundTrip(s[..4]);
    var n := FromLE(s[..4]);
    assert s == s[..4] + s[4..4 + n] + s[4 + n..];
  }

  lemma StreamPrepend(first: seq<Byte>, bodies: seq<seq<Byte>>, rest: seq<Byte>)
    ensures Stream([first] + bodies) + rest == Framed(first) + (Stream(bodies) + rest)
  {
    assert ([first] + bodies)[1..] == bodies;
  }

  /** Nothing is lost or invented: the frames and the rest are the stream. */
  lemma {:induction false} StreamSplit(s: seq<Byte>)
    ensures Stream(Split(s).bodies) + Split(s).rest == s
    ensures !Whole(Split(s).rest)
    decreases |s|
  {
    if Whole(s) {
      hide Whole, First, Behind, Stream, Framed;
      var t := Split(Behind(s));
      StreamSplit(Behind(s));
      FirstFramed(s);
      StreamPrepend(First(s), t.bodies, t.rest);
    } else {
      assert [] + s == s;
    }
  }

  // ---- answering ----

  /** Frame bodies of one client in order: a malformed one closes the client, and whatever
      comes behind the client's end is dropped. */
  function Serve(h: State, id: Id, bodies: seq<seq<Byte>>): State
    decreases |bodies|
  {
    if bodies == [] || id !in h.clients then h
    else
      match Protocol.Decode(bodies[0])
      case None => Close(h, id)
      case Some(m) => Serve(Handle(h, id, m), id, bodies[1..])
  }

  lemma ServeGone(h: State, id: Id, bodies: seq<seq<Byte>>)
    requires id !in h.clients
    ensures Serve(h, id, bodies) == h
  {
  }

  lemma {:induction false} ServeMore(h: State, id: Id, a: seq<seq<Byte>>, b: seq<seq<Byte>>)
    ensures Serve(h, id, a + b) == Serve(Serve(h, id, a), id, b)
    decreases |a|
  {
    if a == [] {
      assert a + b == b;
    } else if id in h.clients {
      assert (a + b)[1..] == a[1..] + b;
      match Protocol.Decode(a[0])
      case None => CloseEnds(h, id); ServeGone(Close(h, id), id, b);
      case Some(m) => ServeMore(Handle(h, id, m), id, a[1..], b);
    }
  }

  /** Leaving channels does not end any client. */
  lemma {:induction false} LeaveAllClients(h: State, id: Id, list: seq<(string, Mode)>)
    ensures LeaveAll(h, id, list).clients == h.clients
    decreases |list|
  {
    if list != [] {
      LeaveAllClients(Leave(h, id, list[0].0), id, list[1..]);
    }
  }

  lemma CloseEnds(h: State, id: Id)
    ensures Close(h, id).clients == h.clients - {id}
  {
    if id in h.clients {
      LeaveAllClients(h, id, h.clients[id].attachments);
    }
  }

  /** What the hub has done once it has been given some chunks of a stream one by one,
      with `raw` left over from before, and what is then left over. */
  function Feed(h: State, id: Id, raw: seq<Byte>, chunks: seq<seq<Byte>>): (State, seq<Byte>)
    decreases |chunks|
  {
    if chunks == [] then (h, raw)
    else
      var t := Split(raw + chunks[0]);
      Feed(Serve(h, id, t.bodies), id, t.rest, chunks[1..])
  }

  lemma SplitNone(s: seq<Byte>)
    requires !Whole(s)
    ensures Split(s) == Cut([], s)
  {
  }

  lemma ServeNone(h: State, id: Id)
    ensures Serve(h, id, []) == h
  {
  }

  /** How a stream is cut into chunks does not matter. */
  lemma {:induction false} ChunksDoNotMatter(h: State, id: Id, raw: seq<Byte>, chunks: seq<seq<Byte>>)
    requires !Whole(raw)
    ensures
      var t := Split(raw + Concat(chunks));
      Feed(h, id, raw, chunks) == (Serve(h, id, t.bodies), t.rest)
    decreases |chunks|
  {
    hide Whole, First, Behind, Serve, Split;
    if chunks == [] {
      assert raw + Concat(chunks) == raw;
      SplitNone(raw);
      ServeNone(h, id);
    } else {
      var t := Split(raw + chunks[0]);
      StreamSplit(raw + chunks[0]);
      ChunksDoNotMatter(Serve(h, id, t.bodies), id, t.rest, chunks[1..]);
      SplitMore(raw + chunks[0], Concat(chunks[1..]));
      assert raw + Concat(chunks) == raw + chunks[0] + Concat(chunks[1..]);
      ServeMore(h, id, t.bodies, Split(t.rest + Concat(chunks[1..])).bodies);
    }
  }

  /** The bodies of some messages. */
  function Bodies(ms: seq<Message>): (r: seq<seq<Byte>>)
    ensures |r| == |ms|
    ensures forall i | 0 <= i < |ms| :: r[i] == Encoded(ms[i])
  {
    if ms == [] then [] else [Encoded(ms[0])] + Bodies(ms[1..])
  }

  /** The answers to some messages, in order, until the client has left. */
  function Answer(h: State, id: Id, ms: seq<Message>): State
    decreases |ms|
  {
    if ms == [] || id !in h.clients then h else Answer(Handle(h, id, ms[0]), id, ms[1..])
  }

  lemma {:induction false} ServeBodies(h: State, id: Id, ms: seq<Message>)
    requires forall m | m in ms :: Fits(m)
    ensures Serve(h, id, Bodies(ms)) == Answer(h, id, ms)
    decreases |ms|
  {
    if ms != [] && id in h.clients {
      MessageRoundTrip(ms[0], []);
      assert Encoded(ms[0]) + [] == Encoded(ms[0]);
      assert Bodies(ms)[1..] == Bodies(ms[1..]);
      ServeBodies(Handle(h, id, ms[0]), id, ms[1..]);
    }
  }

  /** Messages framed by the encoders, however the transport cuts them up, are answered
      exactly once each and in order, and no byte is left over. */
  lemma MessagesArrive(h: State, id: Id, ms: seq<Message>, chunks: seq<seq<Byte>>)
    requires forall m | m in ms :: Fits(m) && |Encoded(m)| < U32
    requires Concat(chunks) == Stream(Bodies(ms))
    ensures Feed(h, id, [], chunks) == (Answer(h, id, ms), [])
  {
    ChunksDoNotMatter(h, id, [], chunks);
    assert [] + Concat(chunks) == Concat(chunks);
    SplitStream(Bodies(ms));
    ServeBodies(h, id, ms);
  }
}
