/** The hub daemon: clients, channels and half-received frames, updated in place. */
module Daemons {
  import opened Bytes
  import opened Syntax
  import opened Hub
  import opened Protocol
  import opened Framing
  import opened Membership
  import opened Delivery
  import Admission
  import Wire

  /** Input of a client that no message has been made of yet, and the length of the frame
      it belongs to once that is known. */
  datatype Inbox = Inbox(input: seq<Byte>, frame: Option<nat>)

  /** The stream an inbox stands for. */
  function Raw(b: Inbox): seq<Byte> {
    if b.frame.Some? then LE(b.frame.value, 4) + b.input else b.input
  }

  /** Taking the length off the input changes nothing of the stream. */
  lemma HeaderTaken(b: Inbox)
    requires b.frame.None? && |b.input| >= 4
    ensures FromLE(b.input[..4]) < U32 && Raw(Inbox(b.input[4..], Some(FromLE(b.input[..4])))) == Raw(b)
  {
    FromLEBound(b.input[..4]);
    assert Pow256(4) == U32 by { assert Pow256(2) == 0x1_0000 && Pow256(3) == 0x100_0000; }
    FromLERoundTrip(b.input[..4]);
    assert b.input == b.input[..4] + b.input[4..];
  }

  /** With the length known, the frame is complete as soon as the input has that many bytes. */
  lemma HeaderKnown(b: Inbox)
    requires b.frame.Some? && b.frame.value < U32
    ensures Whole(Raw(b)) <==> |b.input| >= b.frame.value
    ensures Whole(Raw(b)) ==> First(Raw(b)) == b.input[..b.frame.value] && Behind(Raw(b)) == b.input[b.frame.value..]
  {
    Word32(b.frame.value);
    assert Raw(b)[..4] == LE(b.frame.value, 4);
  }

  lemma ShortInput(b: Inbox)
    requires b.frame.None? && |b.input| < 4
    ensures !Whole(Raw(b))
  {
  }

  lemma RawPlain(b: Inbox)
    requires b.frame.None?
    ensures Raw(b) == b.input
  {
  }

  /** Serving a stream frame by frame. */
  lemma ServeStep(h: State, id: Id, raw: seq<Byte>)
    requires id in h.clients
    ensures !Whole(raw) ==> Split(raw) == Cut([], raw) && Serve(h, id, Split(raw).bodies) == h
    ensures Whole(raw) ==> Split(raw).rest == Split(Behind(raw)).rest
    ensures Whole(raw) ==>
              Serve(h, id, Split(raw).bodies) ==
              match Protocol.Decode(First(raw))
              case None => Close(h, id)
              case Some(m) => Serve(Handle(h, id, m), id, Split(Behind(raw)).bodies)
    ensures forall h1: State, bodies | id !in h1.clients :: Serve(h1, id, bodies) == h1
  {
    if Whole(raw) {
      assert Split(raw).bodies[1..] == Split(Behind(raw)).bodies;
    }
  }

  lemma {:induction false} OthersSame(h: State, h1: State, peers: seq<Id>, id: Id)
    requires h.clients == h1.clients
    ensures Others(h, peers, id) == Others(h1, peers, id)
  {
    if peers != [] {
      OthersSame(h, h1, peers[1..], id);
    }
  }

  lemma OthersStep(h: State, peers: seq<Id>, id: Id, i: nat)
    requires i < |peers|
    ensures
      var rest := Others(h, peers[i + 1..], id);
      Others(h, peers[i..], id) == if peers[i] == id || peers[i] !in h.clients then rest else [peers[i]] + rest
  {
    assert peers[i..][1..] == peers[i + 1..];
  }

  lemma PostAllStep(h: State, x: Id, xs: seq<Id>, f: Frame)
    ensures PostAll(h, [x] + xs, f) == PostAll(Post(h, x, f), xs, f)
  {
    assert ([x] + xs)[1..] == xs;
  }

  lemma NobodyLeft(h: State, h1: State, peers: seq<Id>, id: Id, f: Frame)
    ensures Others(h, peers[|peers|..], id) == [] && PostAll(h1, [], f) == h1
  {
    assert peers[|peers|..] == [];
  }

  class Daemon {
    var clients: map<Id, Client>
    var inputs: map<Id, Inbox>
    var channels: map<string, Channel>
    /** What has been sent, taken in and handed on. */
    ghost var log: seq<Event>
    /** The steps that led here. */
    ghost var history: seq<Step>

    ghost function View(): State
      reads this
    {
      State(clients, channels, log)
    }

    /** The daemon is in a state that some run of the hub reaches. */
    ghost predicate Valid()
      reads this
    {
      && Run(history) && View() == After(history)
      && inputs.Keys == clients.Keys
      && (forall id | id in inputs :: inputs[id].frame.Some? ==> inputs[id].frame.value < U32)
    }

    constructor ()
      ensures Valid() && history == [] && View() == Empty
    {
      clients, inputs, channels, log, history := map[], map[], map[], [], [];
    }

    // ---- sending ----

    method Send(id: Id, f: Frame)
      modifies `log
      ensures View() == Post(old(View()), id, f)
    {
      if id in clients {
        log := log + [Sent(id, f)];
      }
    }

    method MaybeEraseChannel(ch: string)
      modifies `channels
      ensures View() == MaybeErase(old(View()), ch)
    {
      if ch in channels {
        var state := channels[ch];
        if !HasReader(state) && state.pending == [] && state.writers == [] && state.peers == [] {
          channels := channels - {ch};
        }
      }
    }

    method TouchChannel(ch: string)
      modifies `channels
      ensures View() == Touch(old(View()), ch)
    {
      if ch !in channels {
        channels := channels[ch := NoChannel];
      }
    }

    method DeliverToReaders(ch: string, p: Payload)
      requires ch in channels
      modifies `channels, `log
      ensures View() == Dispatch(old(View()), ch, p)
    {
      log := log + [Dispatched(ch, p)];
      var readers, f := channels[ch].broadcastReaders, Deliver(ch, BroadcastIn, p);
      ghost var start := View();
      for i := 0 to |readers|
        invariant PostAll(View(), readers[i..], f) == PostAll(start, readers, f)
        invariant clients == old(clients) && channels == old(channels)
      {
        Send(readers[i], f);
        assert readers[i..][1..] == readers[i + 1..];
      }
      var state := channels[ch];
      if state.queueReaders != [] {
        var index := state.cursor % |state.queueReaders|;
        channels := channels[ch := state.(cursor := (state.cursor + 1) % U64)];
        Send(state.queueReaders[index], Deliver(ch, QueueIn, p));
      }
    }

    method PopPending(ch: string) returns (p: Payload)
      requires ch in channels && channels[ch].pending != []
      modifies `channels
      ensures View() == Pop(old(View()), ch) && p == old(channels[ch].pending[0])
    {
      p := channels[ch].pending[0];
      channels := channels[ch := channels[ch].(pending := channels[ch].pending[1..])];
    }

    method FlushPending(ch: string)
      requires ch in channels
      modifies `channels, `log
      ensures View() == Flush(old(View()), ch)
    {
      while channels[ch].pending != [] && HasReader(channels[ch])
        invariant ch in channels && clients == old(clients)
        invariant Flush(View(), ch) == Flush(old(View()), ch)
        decreases |channels[ch].pending|
      {
        label Before:
        ghost var h := View();
        var p := PopPending(ch);
        DispatchKeeps(View(), ch, p);
        DeliverToReaders(ch, p);
        assert View() == Dispatch(Pop(h, ch), ch, h.channels[ch].pending[0]);
      }
    }

    /** Everything pending goes to one peer. */
    method DrainTo(ch: string, id: Id)
      requires ch in channels && id in clients
      modifies `channels, `log
      ensures View() == Drain(old(View()), ch, id)
    {
      while channels[ch].pending != []
        invariant ch in channels && clients == old(clients)
        invariant Drain(View(), ch, id) == Drain(old(View()), ch, id)
        decreases |channels[ch].pending|
      {
        ghost var h := View();
        var p := PopPending(ch);
        log := log + [Dispatched(ch, p)];
        Send(id, Deliver(ch, ChannelPeer, p));
        assert View() == Post(Note(Pop(h, ch), Dispatched(ch, h.channels[ch].pending[0])), id,
          Deliver(ch, ChannelPeer, h.channels[ch].pending[0]));
      }
    }

    // ---- joining and leaving ----

    method RegisterAttachment(id: Id, ch: string, mode: Mode) returns (ok: bool)
      requires id in clients
      modifies `clients, `channels, `log
      ensures View() == Register(old(View()), id, ch, mode)
      ensures ok <==> Admission.Room(Admission.Look(old(View()), ch), mode)
      ensures Members(old(View())) ==> Admission.AttachedAs(old(View()), View(), id, ch, mode, ok)
      ensures clients.Keys == old(clients.Keys)
    {
      hide Admission.AttachedAs, Admission.Look, Members;
      Admission.RegisterAnswered(View(), id, ch, mode);
      Admission.SeatsTouched(View(), ch, mode);
      TouchChannel(ch);
      var state := channels[ch];
      if (mode == QueueIn || mode == BroadcastIn) && state.writers == [] {
        Send(id, Refused(NoPublisher(ch)));
        MaybeEraseChannel(ch);
        return false;
      }
      if mode == ChannelPeer && |state.peers| >= 2 {
        Send(id, Refused(TwoPeers(ch)));
        MaybeEraseChannel(ch);
        return false;
      }
      clients := clients[id := Client(clients[id].attachments + [(ch, mode)])];
      match mode {
        case Writer => channels := channels[ch := state.(writers := state.writers + [id])];
        case BroadcastIn => channels := channels[ch := state.(broadcastReaders := state.broadcastReaders + [id])];
        case QueueIn => channels := channels[ch := state.(queueReaders := state.queueReaders + [id])];
        case ChannelPeer => channels := channels[ch := state.(peers := state.peers + [id])];
        case OtherMode(_) => channels := channels[ch := state];
      }
      assert View() == Attach(Touch(old(View()), ch), id, ch, mode);
      Send(id, Ack);
      if mode == BroadcastIn || mode == QueueIn {
        FlushPending(ch);
      } else if mode == ChannelPeer {
        DrainTo(ch, id);
      }
      ok := true;
    }

    method RemoveFromChannel(id: Id, ch: string)
      modifies `channels
      ensures View() == Leave(old(View()), id, ch)
    {
      if ch in channels {
        channels := channels[ch := WithoutClient(channels[ch], id)];
        MaybeEraseChannel(ch);
      }
    }

    method UnregisterAttachment(id: Id, ch: string, mode: Mode)
      requires id in clients
      modifies `clients, `channels
      ensures View() == Unregister(old(View()), id, ch, mode)
      ensures clients.Keys == old(clients.Keys)
    {
      clients := clients[id := Client(Unlisted(clients[id].attachments, ch, mode))];
      RemoveFromChannel(id, ch);
    }

    method CloseClient(id: Id)
      requires inputs.Keys == clients.Keys
      modifies `clients, `inputs, `channels, `log
      ensures View() == Close(old(View()), id)
      ensures inputs == old(inputs) - {id} && inputs.Keys == clients.Keys
    {
      if id !in clients {
        assert inputs - {id} == inputs;
        return;
      }
      var list := clients[id].attachments;
      for i := 0 to |list|
        invariant clients == old(clients) && inputs == old(inputs)
        invariant LeaveAll(View(), id, list[i..]) == LeaveAll(old(View()), id, list)
      {
        RemoveFromChannel(id, list[i].0);
        assert list[i..][1..] == list[i + 1..];
      }
      assert list[|list|..] == [];
      clients := clients - {id};
      inputs := inputs - {id};
      log := log + [Gone(id)];
    }

    // ---- payloads ----

    /** One copy to every other peer that is there. */
    method DeliverToPeers(id: Id, ch: string, peers: seq<Id>, p: Payload) returns (delivered: bool)
      modifies `log
      ensures delivered <==> Others(old(View()), peers, id) != []
      ensures View() == PostAll(old(View()), Others(old(View()), peers, id), Deliver(ch, ChannelPeer, p))
    {
      hide Others, PostAll;
      delivered := false;
      ghost var start, f := View(), Deliver(ch, ChannelPeer, p);
      ghost var others := Others(start, peers, id);
      assert peers[0..] == peers;
      for i := 0 to |peers|
        invariant clients == old(clients) && channels == old(channels)
        invariant (delivered || Others(start, peers[i..], id) != []) <==> others != []
        invariant PostAll(View(), Others(start, peers[i..], id), f) == PostAll(start, others, f)
      {
        OthersStep(start, peers, id, i);
        if peers[i] != id && peers[i] in clients {
          PostAllStep(View(), peers[i], Others(start, peers[i + 1..], id), f);
          Send(peers[i], Deliver(ch, ChannelPeer, p));
          delivered := true;
        }
      }
      NobodyLeft(start, View(), peers, id, f);
    }

    method PublishFromPeer(id: Id, ch: string, p: Payload)
      requires ch in channels && id in clients
      modifies `channels, `log
      ensures View() == PublishPeer(old(View()), id, ch, p)
    {
      var state := channels[ch];
      if Others(View(), state.peers, id) != [] {
        log := log + [Accepted(ch, p)];
        log := log + [Dispatched(ch, p)];
      }
      OthersSame(old(View()), View(), state.peers, id);
      var delivered := DeliverToPeers(id, ch, state.peers, p);
      if !delivered {
        if |state.pending| >= MaxPending {
          Send(id, Refused(Full(ch)));
          return;
        }
        channels := channels[ch := state.(pending := state.pending + [p])];
        log := log + [Accepted(ch, p)];
        assert View() == Enqueue(old(View()), ch, p);
        if state.ready.Some? && state.ready.value != id && state.ready.value in clients {
          DrainTo(ch, state.ready.value);
        }
      }
      Send(id, Ack);
    }

    method PublishMessage(id: Id, ch: string, p: Payload)
      requires id in clients
      modifies `channels, `log
      ensures View() == Publish(old(View()), id, ch, p)
    {
      TouchChannel(ch);
      var state := channels[ch];
      if id in state.peers {
        PublishFromPeer(id, ch, p);
        return;
      }
      if !HasReader(state) {
        if |state.pending| >= MaxPending {
          Send(id, Refused(Full(ch)));
          return;
        }
        channels := channels[ch := state.(pending := state.pending + [p])];
        log := log + [Accepted(ch, p)];
        Send(id, Ack);
        return;
      }
      log := log + [Accepted(ch, p)];
      DeliverToReaders(ch, p);
      Send(id, Ack);
    }

    // ---- the channel handshake ----

    /** Whether some other slot of the channel is taken. */
    method OtherChannelPeer(peers: seq<Id>, id: Id) returns (found: bool)
      ensures found <==> exists x | x in peers :: x != id
    {
      found := false;
      for i := 0 to |peers|
        invariant forall k | 0 <= k < i :: peers[k] == id
      {
        if peers[i] != id {
          assert peers[i] in peers;
          return true;
        }
      }
    }

    method HandleChannelOffer(id: Id, ch: string)
      requires id in clients
      modifies `channels, `log
      ensures View() == Offer(old(View()), id, ch)
    {
      TouchChannel(ch);
      log := log + [Offered(id, ch)];
      var state := channels[ch];
      if id !in state.peers {
        Send(id, Refused(NotAttached(ch)));
        return;
      }
      if state.offer.Some? && state.offer.value != id {
        channels := channels[ch := state.(offer := None)];
        assert state.(offer := None) == state.(offer := None, ready := state.ready);
        Send(id, Busy(ch));
        Send(state.offer.value, Busy(ch));
        return;
      }
      var peer := OtherChannelPeer(state.peers, id);
      if peer || (state.ready.Some? && state.ready.value != id) {
        channels := channels[ch := state.(offer := None, ready := None)];
        Send(id, Accept(ch));
        return;
      }
      channels := channels[ch := state.(offer := Some(id))];
      assert state.(offer := Some(id)) == state.(offer := Some(id), ready := state.ready);
    }

    method HandleChannelRecvReady(id: Id, ch: string)
      requires id in clients
      modifies `channels, `log
      ensures View() == RecvReady(old(View()), id, ch)
    {
      TouchChannel(ch);
      var state := channels[ch];
      if id !in state.peers {
        Send(id, Refused(NotAttached(ch)));
        return;
      }
      if state.offer.Some? && state.offer.value != id {
        channels := channels[ch := state.(offer := None)];
        assert state.(offer := None) == state.(offer := None, ready := state.ready);
        Send(state.offer.value, Accept(ch));
      }
      DrainKeeps(View(), ch, id);
      DrainTo(ch, id);
      ghost var c := channels[ch];
      channels := channels[ch := channels[ch].(ready := Some(id))];
      assert c.(ready := Some(id)) == c.(offer := c.offer, ready := Some(id));
    }

    // ---- messages ----

    method HandleMessage(id: Id, m: Message) returns (more: bool)
      requires Valid() && id in clients
      modifies this
      ensures Valid() && history == old(history) + [From(id, m)]
      ensures View() == Handle(old(View()), id, m)
      ensures more <==> m != ByeMsg
      ensures if more then inputs == old(inputs) else inputs == old(inputs) - {id}
    {
      more := true;
      match m {
        case ByeMsg =>
          CloseClient(id);
          more := false;
        case AttachMsg(ch, mode) =>
          var ok := RegisterAttachment(id, ch, mode);
        case DetachMsg(ch, mode) =>
          UnregisterAttachment(id, ch, mode);
        case PublishMsg(ch, p) =>
          PublishMessage(id, ch, p);
        case OfferMsg(ch) =>
          HandleChannelOffer(id, ch);
        case ReadyMsg(ch) =>
          HandleChannelRecvReady(id, ch);
        case DataAckMsg(ch) =>
          TouchChannel(ch);
        case _ =>
      }
      history := history + [From(id, m)];
      RunMore(old(history), From(id, m));
    }

    /** Handle one frame of a client's input, if there is a complete one. */
    method ProcessFrame(id: Id) returns (more: bool)
      requires Valid() && id in clients
      modifies this
      ensures Valid() && old(history) <= history && (more ==> id in clients)
      ensures id in clients ==> inputs == old(inputs)[id := inputs[id]]
      ensures id !in clients ==> inputs == old(inputs) - {id}
      ensures !old(Whole(Raw(inputs[id]))) ==>
                !more && View() == old(View()) && id in clients && Raw(inputs[id]) == old(Raw(inputs[id]))
      ensures old(Whole(Raw(inputs[id]))) ==>
                match Protocol.Decode(old(First(Raw(inputs[id]))))
                case None => !more && View() == Close(old(View()), id) && id !in clients
                case Some(m) =>
                  && View() == Handle(old(View()), id, m) && (more <==> id in clients)
                  && (more ==>
                    Raw(inputs[id]) == old(Behind(Raw(inputs[id]))) && |inputs[id].input| <= |old(inputs)[id].input|
                    && inputs[id].frame.None?)
      ensures more && old(inputs)[id].frame.None? ==> |inputs[id].input| < |old(inputs)[id].input|
    {
      hide Run, After, Whole, First, Behind, Raw, Close, Handle, Next;
      more := false;
      var box := inputs[id];
      if box.frame.None? {
        if |box.input| < 4 {
          ShortInput(box);
          return;
        }
        HeaderTaken(box);
        box := Inbox(box.input[4..], Some(FromLE(box.input[..4])));
        inputs := inputs[id := box];
      }
      HeaderKnown(box);
      if |box.input| < box.frame.value {
        return;
      }
      var decoded := Wire.DecodeMessage(box.input[..box.frame.value]);
      if decoded.None? {
        LoseClient(id);
        return;
      }
      inputs := inputs[id := Inbox(box.input[box.frame.value..], None)];
      RawPlain(inputs[id]);
      more := HandleMessage(id, decoded.value);
    }

    method ProcessClientInput(id: Id)
      requires Valid() && id in clients
      modifies this
      ensures Valid() && old(history) <= history
      ensures View() == Serve(old(View()), id, Split(old(Raw(inputs[id]))).bodies)
      ensures id in clients ==>
        inputs == old(inputs)[id := inputs[id]] && Raw(inputs[id]) == Split(old(Raw(inputs[id]))).rest
      ensures id !in clients ==> inputs == old(inputs) - {id}
    {
      hide Run, Whole, First, Behind, Raw, Close, Handle, Serve, Split;
      ghost var whole := Split(Raw(inputs[id]));
      ghost var before := inputs;
      var more := true;
      while more
        invariant Valid() && old(history) <= history && (more ==> id in clients)
        invariant id in clients ==> inputs == before[id := inputs[id]]
        invariant id !in clients ==> inputs == before - {id}
        invariant more ==> Serve(View(), id, Split(Raw(inputs[id])).bodies) == Serve(old(View()), id, whole.bodies)
        invariant more ==> Split(Raw(inputs[id])).rest == whole.rest
        invariant !more ==> View() == Serve(old(View()), id, whole.bodies)
        invariant !more && id in clients ==> Raw(inputs[id]) == whole.rest
        decreases more, if id in inputs then |inputs[id].input| else 0, if id in inputs then inputs[id].frame.Some?
          else false
      {
        ServeStep(View(), id, Raw(inputs[id]));
        more := ProcessFrame(id);
      }
    }

    /** More bytes from a client: the frames they complete are answered in order. */
    method IngestBytes(id: Id, data: seq<Byte>)
      requires Valid() && id in clients
      modifies this
      ensures Valid() && old(history) <= history
      ensures View() == Serve(old(View()), id, Split(old(Raw(inputs[id])) + data).bodies)
      ensures id in clients ==> Raw(inputs[id]) == Split(old(Raw(inputs[id])) + data).rest
      ensures forall other | other != id :: other in inputs <==> other in old(inputs)
      ensures forall other | other != id && other in inputs :: inputs[other] == old(inputs)[other]
    {
      var box := inputs[id];
      inputs := inputs[id := box.(input := box.input + data)];
      assert Raw(inputs[id]) == Raw(box) + data;
      ProcessClientInput(id);
    }

    /** A new connection. */
    method AcceptClient(id: Id)
      requires Valid() && id !in clients
      modifies this
      ensures Valid() && history == old(history) + [Connect(id)]
      ensures inputs == old(inputs)[id := Inbox([], None)]
    {
      clients := clients[id := Client([])];
      inputs := inputs[id := Inbox([], None)];
      history := history + [Connect(id)];
      RunMore(old(history), Connect(id));
    }

    /** A connection that broke. */
    method LoseClient(id: Id)
      requires Valid()
      modifies this
      ensures Valid() && history == old(history) + [Lost(id)]
      ensures View() == Close(old(View()), id) && id !in clients && inputs == old(inputs) - {id}
    {
      CloseClient(id);
      history := history + [Lost(id)];
      RunMore(old(history), Lost(id));
    }
  }

  /** Whatever a daemon has been through, its lists hold live clients only. */
  lemma DaemonMembers(d: Daemon)
    requires d.Valid()
    ensures Members(d.View())
  {
    MembersAlways(d.history);
  }

  /** On a name that was never used as a channel, everything taken in has been handed on or
      is pending, in order. */
  lemma DaemonDelivers(d: Daemon, ch: string)
    requires d.Valid() && forall s | s in d.history :: PipeStep(s, ch)
    ensures PipeInv(d.View(), ch)
  {
    PipeDelivery(d.history, ch);
  }
}
