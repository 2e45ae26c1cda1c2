/** What the hub answers to every message, told from the history of the clients' messages:
    who is admitted to a name and who holds a seat there, what the log gains at each step,
    and what becomes of the backlog and of parked offers. */
module Admission {
  import opened Bytes
  import opened Syntax
  import opened Hub
  import opened Membership
  import opened Delivery
  import opened Fairness

  // ---- who holds a seat, from the history alone ----

  /** The ids that hold a seat of this kind on a name, in the order in which they were
      admitted, once for each time. Detaching from the name in any mode gives up all of a
      client's seats there, as does going away. */
  function Seats(steps: seq<Step>, ch: string, mode: Mode): seq<Id>
    decreases |steps|, 0
  {
    if steps == [] then []
    else
      var rest := steps[..|steps| - 1];
      SeatsThen(Seats(rest, ch, mode), Admitted(rest, ch, mode), steps[|steps| - 1], ch, mode)
  }

  function SeatsThen(before: seq<Id>, admitted: bool, s: Step, ch: string, mode: Mode): seq<Id> {
    match s
    case From(id, AttachMsg(at, m)) => if at == ch && m == mode && admitted then before + [id] else before
    case From(id, DetachMsg(at, _)) => if at == ch then Leaving(before, id) else before
    case From(id, ByeMsg) => Leaving(before, id)
    case Lost(id) => Leaving(before, id)
    case _ => before
  }

  /** Readers need somebody who publishes, and two peers are enough. */
  predicate Admitted(steps: seq<Step>, ch: string, mode: Mode)
    decreases |steps|, 1
  {
    match mode
    case QueueIn => Seats(steps, ch, Writer) != []
    case BroadcastIn => Seats(steps, ch, Writer) != []
    case ChannelPeer => |Seats(steps, ch, ChannelPeer)| < 2
    case _ => true
  }

  /** The list without one of the ids. */
  function Leaving(list: seq<Id>, id: Id): seq<Id> {
    if list == [] then []
    else Leaving(list[..|list| - 1], id) + if list[|list| - 1] == id then [] else [list[|list| - 1]]
  }

  lemma {:induction false} LeavingErases(list: seq<Id>, id: Id)
    ensures Leaving(list, id) == Erase(list, id)
  {
    if list != [] {
      var n := |list| - 1;
      LeavingErases(list[..n], id);
      assert list == list[..n] + [list[n]];
      ErasedInPlace(list[..n], [list[n]], id);
      assert [list[n]][1..] == [];
    }
  }

  // ---- what the hub keeps about a name ----

  /** Everything but whose turn it is; a name nobody uses looks like one the hub never heard of. */
  function Look(h: State, ch: string): Channel {
    if ch in h.channels then h.channels[ch].(cursor := 0) else NoChannel
  }

  function Listed(c: Channel, mode: Mode): seq<Id> {
    match mode
    case Writer => c.writers
    case QueueIn => c.queueReaders
    case BroadcastIn => c.broadcastReaders
    case ChannelPeer => c.peers
    case OtherMode(_) => []
  }

  lemma TouchLook(h: State, at: string, x: string)
    ensures Look(Touch(h, at), x) == Look(h, x)
  {
  }

  lemma EraseLook(h: State, at: string, x: string)
    requires at in h.channels ==> MemberOk(h, at)
    ensures Look(MaybeErase(h, at), x) == Look(h, x)
  {
  }

  lemma FlushLook(h: State, at: string, x: string)
    requires at in h.channels && HasReader(h.channels[at])
    ensures Look(Flush(h, at), x) == if x == at then Look(h, x).(pending := []) else Look(h, x)
  {
    FlushState(h, at);
  }

  lemma DrainLook(h: State, at: string, id: Id, x: string)
    requires at in h.channels
    ensures Look(Drain(h, at, id), x) == if x == at then Look(h, x).(pending := []) else Look(h, x)
  {
    DrainKeeps(h, at, id);
  }

  lemma DispatchLook(h: State, at: string, p: Payload, x: string)
    requires at in h.channels
    ensures Look(Dispatch(h, at, p), x) == Look(h, x)
  {
    DispatchKeeps(h, at, p);
    PostAllFrame(Note(h, Dispatched(at, p)), h.channels[at].broadcastReaders, Deliver(at, BroadcastIn, p));
  }

  lemma LeaveLook(h: State, id: Id, at: string, x: string)
    requires Members(h)
    ensures Look(Leave(h, id, at), x) == if x == at then WithoutClient(Look(h, x), id) else Look(h, x)
  {
    if at in h.channels {
      assert MemberOk(h, at);
      var h1 := h.(channels := h.channels[at := WithoutClient(h.channels[at], id)]);
      assert MemberOk(h1, at);
      EraseLook(h1, at, x);
    }
  }

  lemma {:induction false} LeaveAllLook(h: State, id: Id, list: seq<(string, Mode)>, x: string)
    requires Members(h)
    ensures Look(LeaveAll(h, id, list), x) == if exists m :: (x, m) in list then WithoutClient(Look(h, x), id)
      else Look(h, x)
    decreases |list|
  {
    if list != [] {
      var at, m := list[0].0, list[0].1;
      LeaveKeeps(h, id, at);
      LeaveLook(h, id, at, x);
      LeaveAllLook(Leave(h, id, at), id, list[1..], x);
      WithoutTwice(Look(h, x), id);
      assert list[0] == (at, m);
      assert forall y :: y in list <==> y == list[0] || y in list[1..];
    }
  }

  /** A client that goes away leaves every name. */
  lemma CloseLook(h: State, id: Id, x: string)
    requires Members(h) && id in h.clients
    ensures Look(Close(h, id), x) == WithoutClient(Look(h, x), id)
    ensures Close(h, id).log == h.log + [Gone(id)] && Close(h, id).clients == h.clients - {id}
  {
    var list := h.clients[id].attachments;
    LeaveAllLook(h, id, list, x);
    LeaveAllEffect(h, id, list);
    if !exists m :: (x, m) in list {
      if x in h.channels {
        assert MemberOk(h, x);
        if !Absent(h.channels[x], id) {
          ListedWhere(h, x, id);
        }
        AbsentStays(Look(h, x), id);
      }
    }
  }

  lemma AbsentStays(c: Channel, id: Id)
    requires Absent(c, id)
    ensures WithoutClient(c, id) == c
  {
    EraseTwice(c.queueReaders, id);
    EraseTwice(c.broadcastReaders, id);
    EraseTwice(c.writers, id);
    EraseTwice(c.peers, id);
  }
  // ---- what the log gains ----

  /** Payloads handed on to one client, one after the other. */
  function Handover(ch: string, id: Id, mode: Mode, ps: seq<Payload>): seq<Event> {
    if ps == [] then []
    else [Dispatched(ch, ps[0]), Sent(id, Deliver(ch, mode, ps[0]))] + Handover(ch, id, mode, ps[1..])
  }

  lemma Chained(log: seq<Event>, two: seq<Event>, rest: seq<Event>)
    ensures log + two + rest == log + (two + rest)
  {
  }

  lemma {:induction false} DrainHands(h: State, ch: string, id: Id)
    requires ch in h.channels && id in h.clients
    ensures Drain(h, ch, id).log == h.log + Handover(ch, id, ChannelPeer, h.channels[ch].pending)
    decreases |h.channels[ch].pending|
  {
    var ps := h.channels[ch].pending;
    if ps == [] {
      assert h.log + [] == h.log;
    } else {
      var h1 := Post(Note(Pop(h, ch), Dispatched(ch, ps[0])), id, Deliver(ch, ChannelPeer, ps[0]));
      DrainHands(h1, ch, id);
      var two := [Dispatched(ch, ps[0]), Sent(id, Deliver(ch, ChannelPeer, ps[0]))];
      assert h1.log == h.log + two;
      Chained(h.log, two, Handover(ch, id, ChannelPeer, ps[1..]));
    }
  }

  /** The only reader. */
  predicate Alone(c: Channel, id: Id, mode: Mode) {
    || (mode == QueueIn && c.queueReaders == [id] && c.broadcastReaders == [])
    || (mode == BroadcastIn && c.queueReaders == [] && c.broadcastReaders == [id])
  }

  lemma DispatchAlone(h: State, ch: string, id: Id, mode: Mode, p: Payload)
    requires ch in h.channels && id in h.clients && Alone(h.channels[ch], id, mode)
    ensures Dispatch(h, ch, p).log == h.log + [Dispatched(ch, p), Sent(id, Deliver(ch, mode, p))]
  {
    var c, h0 := h.channels[ch], Note(h, Dispatched(ch, p));
    PostAllSends(h0, c.broadcastReaders, Deliver(ch, BroadcastIn, p));
    PostAllFrame(h0, c.broadcastReaders, Deliver(ch, BroadcastIn, p));
    assert c.broadcastReaders[..] == c.broadcastReaders;
    if mode == BroadcastIn {
      assert [id][1..] == [] && Broadcast([id], Deliver(ch, BroadcastIn, p)) == [Sent(id, Deliver(ch, BroadcastIn, p))];
    } else {
      assert c.cursor % 1 == 0;
    }
  }

  lemma {:induction false} FlushHands(h: State, ch: string, id: Id, mode: Mode)
    requires ch in h.channels && id in h.clients && Alone(h.channels[ch], id, mode)
    ensures Flush(h, ch).log == h.log + Handover(ch, id, mode, h.channels[ch].pending)
    decreases |h.channels[ch].pending|
  {
    var ps := h.channels[ch].pending;
    if ps == [] {
      assert h.log + [] == h.log;
    } else {
      var h1 := Pop(h, ch);
      DispatchKeeps(h1, ch, ps[0]);
      DispatchAlone(h1, ch, id, mode, ps[0]);
      FlushHands(Dispatch(h1, ch, ps[0]), ch, id, mode);
      Chained(h.log, [Dispatched(ch, ps[0]), Sent(id, Deliver(ch, mode, ps[0]))], Handover(ch, id, mode, ps[1..]));
    }
  }

  lemma {:induction false} PostAllGrows(h: State, ids: seq<Id>, f: Frame)
    ensures h.log <= PostAll(h, ids, f).log
    decreases |ids|
  {
    if ids != [] {
      PostAllGrows(Post(h, ids[0], f), ids[1..], f);
    }
  }

  lemma {:induction false} FlushGrows(h: State, ch: string)
    requires ch in h.channels
    ensures h.log <= Flush(h, ch).log
    decreases |h.channels[ch].pending|
  {
    var c := h.channels[ch];
    if c.pending != [] && HasReader(c) {
      var h1 := Pop(h, ch);
      DispatchKeeps(h1, ch, c.pending[0]);
      PostAllGrows(Note(h1, Dispatched(ch, c.pending[0])), c.broadcastReaders, Deliver(ch, BroadcastIn, c.pending[0]));
      FlushGrows(Dispatch(h1, ch, c.pending[0]), ch);
    }
  }

  // ---- attaching ----

  /** The seat an attachment takes. */
  function Seated(c: Channel, id: Id, mode: Mode): Channel {
    match mode
    case Writer => c.(writers := c.writers + [id])
    case QueueIn => c.(queueReaders := c.queueReaders + [id], pending := [])
    case BroadcastIn => c.(broadcastReaders := c.broadcastReaders + [id], pending := [])
    case ChannelPeer => c.(peers := c.peers + [id], pending := [])
    case OtherMode(_) => c
  }

  /** Refused: nothing changes but for one error. */
  ghost predicate Turned(h: State, h1: State, id: Id, reason: Reason) {
    h1.log == h.log + [Sent(id, Refused(reason))] && h1.clients == h.clients && forall x :: Look(h1, x) == Look(h, x)
  }

  /** Admitted: an Ack, a seat, and the backlog, which nobody holds back any more. */
  ghost predicate Joined(h: State, h1: State, id: Id, ch: string, mode: Mode)
    requires id in h.clients
  {
    var ps := Look(h, ch).pending;
    && h1.clients == h.clients[id := Client(h.clients[id].attachments + [(ch, mode)])]
    && (forall x :: Look(h1, x) == if x == ch then Seated(Look(h, x), id, mode) else Look(h, x))
    && h.log + [Sent(id, Ack)] <= h1.log
    && (mode == Writer || mode.OtherMode? ==> h1.log == h.log + [Sent(id, Ack)])
    && (mode == ChannelPeer ==> h1.log == h.log + [Sent(id, Ack)] + Handover(ch, id, mode, ps))
    && (IsReader(mode) ==> HandedOn(h1.log, ch) == HandedOn(h.log, ch) + ps)
    && (IsReader(mode) && !HasReader(Look(h, ch)) ==> h1.log == h.log + [Sent(id, Ack)] + Handover(ch, id, mode, ps))
  }

  /** Readers need a publisher, and a channel has two ends. */
  predicate Room(c: Channel, mode: Mode) {
    (IsReader(mode) ==> c.writers != []) && (mode == ChannelPeer ==> |c.peers| < 2)
  }

  ghost predicate AttachedAs(h: State, h1: State, id: Id, ch: string, mode: Mode, ok: bool)
    requires id in h.clients
  {
    if ok then Joined(h, h1, id, ch, mode)
    else Turned(h, h1, id, if IsReader(mode) then NoPublisher(ch) else TwoPeers(ch))
  }

  lemma RegisterAnswered(h: State, id: Id, ch: string, mode: Mode)
    requires id in h.clients
    ensures Members(h) ==> AttachedAs(h, Register(h, id, ch, mode), id, ch, mode, Room(Look(h, ch), mode))
  {
    hide Register, Joined, Turned, Look, Members;
    if Members(h) {
      RegisterTold(h, id, ch, mode);
    }
  }

  lemma SeatsTouched(h: State, ch: string, mode: Mode)
    ensures Room(Look(h, ch), mode) == Room(Touch(h, ch).channels[ch], mode)
  {
  }

  lemma RegisterTold(h: State, id: Id, ch: string, mode: Mode)
    requires Members(h) && id in h.clients
    ensures
      var h1, c := Register(h, id, ch, mode), Look(h, ch);
      if IsReader(mode) && c.writers == [] then Turned(h, h1, id, NoPublisher(ch))
      else if mode == ChannelPeer && |c.peers| >= 2 then Turned(h, h1, id, TwoPeers(ch))
      else Joined(h, h1, id, ch, mode)
  {
    var h0, c := Touch(h, ch), Look(h, ch);
    TouchQuiet(h, ch);
    QuietKeeps(h, h0);
    assert MemberOk(h0, ch);
    forall x
      ensures Look(h0, x) == Look(h, x)
    {
      TouchLook(h, ch, x);
    }
    if (IsReader(mode) && c.writers == []) || (mode == ChannelPeer && |c.peers| >= 2) {
      var hr := Post(h0, id, Refused(if IsReader(mode) then NoPublisher(ch) else TwoPeers(ch)));
      assert MemberOk(hr, ch);
      forall x
        ensures Look(MaybeErase(hr, ch), x) == Look(h, x)
      {
        EraseLook(hr, ch, x);
      }
    } else {
      JoinTold(h, h0, id, ch, mode);
    }
  }

  lemma JoinTold(h: State, h0: State, id: Id, ch: string, mode: Mode)
    requires id in h.clients && ch in h0.channels && h0.clients == h.clients && h0.log == h.log
    requires forall x :: Look(h0, x) == Look(h, x)
    ensures
      var h1 := Post(Attach(h0, id, ch, mode), id, Ack);
      var h2 := if IsReader(mode) then Flush(h1, ch) else if mode == ChannelPeer then Drain(h1, ch, id) else h1;
      Joined(h, h2, id, ch, mode)
  {
    var h1 := Post(Attach(h0, id, ch, mode), id, Ack);
    var ps := Look(h, ch).pending;
    assert Look(h0, ch) == Look(h, ch) && h1.channels[ch].pending == ps;
    assert forall x | x != ch :: Look(h1, x) == Look(h0, x);
    if IsReader(mode) {
      forall x
        ensures Look(Flush(h1, ch), x) == if x == ch then Seated(Look(h, x), id, mode) else Look(h, x)
      {
        FlushLook(h1, ch, x);
      }
      FlushState(h1, ch);
      FlushGrows(h1, ch);
      FlushOwn(h1, ch);
      NoteEffect(Attach(h0, id, ch, mode), Sent(id, Ack), ch);
      if !HasReader(Look(h, ch)) {
        assert [] + [id] == [id];
        FlushHands(h1, ch, id, mode);
      }
    } else if mode == ChannelPeer {
      forall x
        ensures Look(Drain(h1, ch, id), x) == if x == ch then Seated(Look(h, x), id, mode) else Look(h, x)
      {
        DrainLook(h1, ch, id, x);
      }
      DrainKeeps(h1, ch, id);
      DrainHands(h1, ch, id);
    }
  }
  // ---- publishing ----

  /** Nothing but the backlog of one name may have changed. */
  ghost predicate OnlyBacklog(h: State, h1: State, ch: string, ps: seq<Payload>) {
    h1.clients == h.clients && forall x :: Look(h1, x) == if x == ch then Look(h, x).(pending := ps) else Look(h, x)
  }

  /** What a name with readers sends for one payload: a copy to each broadcast seat, and one
      to a queue seat if there is any. */
  ghost predicate Spread(c: Channel, ch: string, p: Payload, sent: seq<Event>) {
    if c.queueReaders == [] then sent == Broadcast(c.broadcastReaders, Deliver(ch, BroadcastIn, p))
    else
      exists q ::
        && q in c.queueReaders
        && sent == Broadcast(c.broadcastReaders, Deliver(ch, BroadcastIn, p)) + [Sent(q, Deliver(ch, QueueIn, p))]
  }

  /** A payload goes from a peer to the other peers, from anybody else to the readers, and to
      the backlog if there are none; 4096 payloads waiting are enough. Whoever published it
      is told. */
  lemma PublishTold(h: State, id: Id, ch: string, p: Payload) returns (sent: seq<Event>)
    requires Members(h) && id in h.clients
    ensures
      var h1, c, log := Publish(h, id, ch, p), Look(h, ch), Publish(h, id, ch, p).log;
      if id in c.peers && (exists x :: x in c.peers && x != id) then
        && OnlyBacklog(h, h1, ch, c.pending)
        && sent == Broadcast(Leaving(c.peers, id), Deliver(ch, ChannelPeer, p))
        && log == h.log + [Accepted(ch, p), Dispatched(ch, p)] + sent + [Sent(id, Ack)]
      else if id !in c.peers && HasReader(c) then
        && OnlyBacklog(h, h1, ch, c.pending) && Spread(c, ch, p, sent)
        && log == h.log + [Accepted(ch, p), Dispatched(ch, p)] + sent + [Sent(id, Ack)]
      else if |c.pending| >= 4096 then OnlyBacklog(h, h1, ch, c.pending) && log == h.log + [Sent(id, Refused(Full(ch)))]
      else OnlyBacklog(h, h1, ch, c.pending + [p]) && log == h.log + [Accepted(ch, p), Sent(id, Ack)]
  {
    var h0 := Touch(h, ch);
    TouchQuiet(h, ch);
    QuietKeeps(h, h0);
    assert MemberOk(h0, ch);
    forall x
      ensures Look(h0, x) == Look(h, x)
    {
      TouchLook(h, ch, x);
    }
    var c := h0.channels[ch];
    if id in c.peers {
      sent := PeerTold(h0, id, ch, p);
    } else if HasReader(c) {
      sent := Copies(c, ch, p);
      var h1 := Note(h0, Accepted(ch, p));
      LogKeeps(h0, h1);
      DispatchSends(h1, ch, p);
      forall x
        ensures Look(Dispatch(h1, ch, p), x) == Look(h, x)
      {
        DispatchLook(h1, ch, p, x);
      }
      assert h.log + [Accepted(ch, p)] + [Dispatched(ch, p)] == h.log + [Accepted(ch, p), Dispatched(ch, p)];
      if c.queueReaders == [] {
        assert Broadcast(c.broadcastReaders, Deliver(ch, BroadcastIn, p)) + [] == sent;
      } else {
        assert c.queueReaders[c.cursor % |c.queueReaders|] in c.queueReaders;
      }
    } else {
      sent := [];
      assert h.log + [Accepted(ch, p)] + [Sent(id, Ack)] == h.log + [Accepted(ch, p), Sent(id, Ack)];
    }
  }

  lemma PeerTold(h: State, id: Id, ch: string, p: Payload) returns (sent: seq<Event>)
    requires ch in h.channels && id in h.channels[ch].peers && id in h.clients && MemberOk(h, ch)
    ensures
      var h1, c, log := PublishPeer(h, id, ch, p), Look(h, ch), PublishPeer(h, id, ch, p).log;
      if exists x :: x in c.peers && x != id then
        && OnlyBacklog(h, h1, ch, c.pending)
        && sent == Broadcast(Leaving(c.peers, id), Deliver(ch, ChannelPeer, p))
        && log == h.log + [Accepted(ch, p), Dispatched(ch, p)] + sent + [Sent(id, Ack)]
      else if |c.pending| >= 4096 then OnlyBacklog(h, h1, ch, c.pending) && log == h.log + [Sent(id, Refused(Full(ch)))]
      else OnlyBacklog(h, h1, ch, c.pending + [p]) && log == h.log + [Accepted(ch, p), Sent(id, Ack)]
  {
    hide Others, Drain, Enqueue, PostAll, Leaving, Erase, Broadcast, Look;
    var c := h.channels[ch];
    var others := Others(h, c.peers, id);
    OthersErased(h, c.peers, id);
    LeavingErases(c.peers, id);
    assert Look(h, ch).peers == c.peers && Look(h, ch).pending == c.pending by { Looks(h, ch); }
    sent := [];
    if others != [] {
      assert others[0] in others;
      sent := Broadcast(others, Deliver(ch, ChannelPeer, p));
      ForwardTold(h, id, ch, p, others);
    } else {
      assert forall x | x in c.peers :: x == id || x in others;
      assert c.ready.Some? ==> c.ready.value == id;
      KeptTold(h, id, ch, p);
    }
  }

  lemma Looks(h: State, ch: string)
    requires ch in h.channels
    ensures Look(h, ch) == h.channels[ch].(cursor := 0)
  {
  }

  lemma ForwardTold(h: State, id: Id, ch: string, p: Payload, others: seq<Id>)
    requires ch in h.channels && id in h.clients && forall x | x in others :: x in h.clients
    ensures
      var f := Deliver(ch, ChannelPeer, p);
      var h1 := Post(PostAll(Note(Note(h, Accepted(ch, p)), Dispatched(ch, p)), others, f), id, Ack);
      && OnlyBacklog(h, h1, ch, Look(h, ch).pending)
      && h1.log == h.log + [Accepted(ch, p), Dispatched(ch, p)] + Broadcast(others, f) + [Sent(id, Ack)]
  {
    var h2 := Note(Note(h, Accepted(ch, p)), Dispatched(ch, p));
    PostAllSends(h2, others, Deliver(ch, ChannelPeer, p));
    PostAllFrame(h2, others, Deliver(ch, ChannelPeer, p));
    assert h2.log == h.log + [Accepted(ch, p), Dispatched(ch, p)];
  }

  lemma KeptTold(h: State, id: Id, ch: string, p: Payload)
    requires ch in h.channels && id in h.clients
    ensures
      var h1, h2 := Post(h, id, Refused(Full(ch))), Post(Enqueue(h, ch, p), id, Ack);
      && OnlyBacklog(h, h1, ch, Look(h, ch).pending) && h1.log == h.log + [Sent(id, Refused(Full(ch)))]
      && OnlyBacklog(h, h2, ch, Look(h, ch).pending + [p]) && h2.log == h.log + [Accepted(ch, p), Sent(id, Ack)]
  {
    assert h.log + [Accepted(ch, p)] + [Sent(id, Ack)] == h.log + [Accepted(ch, p), Sent(id, Ack)];
  }

  /** All peers are alive, so the others are the peers without the one. */
  lemma {:induction false} OthersErased(h: State, peers: seq<Id>, id: Id)
    requires forall x | x in peers :: x in h.clients
    ensures Others(h, peers, id) == Erase(peers, id)
  {
    if peers != [] {
      OthersErased(h, peers[1..], id);
    }
  }

  // ---- offers ----

  /** Two ids wait on a name: who offers to send, and who is ready to receive. */
  ghost predicate OnlySlots(h: State, h1: State, ch: string, offer: Option<Id>, ready: Option<Id>, ps: seq<Payload>) {
    && h1.clients == h.clients
    && forall x :: Look(h1, x) == if x == ch then Look(h, x).(offer := offer, ready := ready, pending := ps)
      else Look(h, x)
  }

  /** An offer is refused to strangers. Two offers at once are both turned down; an offer is
      accepted if another peer is there, and waits otherwise. */
  lemma OfferTold(h: State, id: Id, ch: string)
    requires Members(h) && id in h.clients
    ensures
      var h1, c, log := Offer(h, id, ch), Look(h, ch), h.log + [Offered(id, ch)];
      if id !in c.peers then
        OnlySlots(h, h1, ch, c.offer, c.ready, c.pending) && h1.log == log + [Sent(id, Refused(NotAttached(ch)))]
      else if c.offer.Some? && c.offer.value != id then
        && OnlySlots(h, h1, ch, None, c.ready, c.pending)
        && h1.log == log + [Sent(id, Busy(ch)), Sent(c.offer.value, Busy(ch))]
      else if exists x :: x in c.peers && x != id then
        OnlySlots(h, h1, ch, None, None, c.pending) && h1.log == log + [Sent(id, Accept(ch))]
      else OnlySlots(h, h1, ch, Some(id), c.ready, c.pending) && h1.log == log
  {
    var h0 := Touch(h, ch);
    TouchQuiet(h, ch);
    QuietKeeps(h, h0);
    assert MemberOk(h0, ch);
    forall x
      ensures Look(h0, x) == Look(h, x)
    {
      TouchLook(h, ch, x);
    }
    var log := h.log + [Offered(id, ch)];
    var c := h0.channels[ch];
    if c.offer.Some? {
      assert log + [Sent(id, Busy(ch))] + [Sent(c.offer.value, Busy(ch))]
        == log + [Sent(id, Busy(ch)), Sent(c.offer.value, Busy(ch))];
    }
  }

  /** Who gets ready grants the offer another one has waiting, takes the backlog, and then
      waits; strangers are refused. */
  lemma ReadyTold(h: State, id: Id, ch: string)
    requires Members(h) && id in h.clients
    ensures
      var h1, c := RecvReady(h, id, ch), Look(h, ch);
      var granted := if c.offer.Some? && c.offer.value != id then [Sent(c.offer.value, Accept(ch))] else [];
      if id !in c.peers then
        OnlySlots(h, h1, ch, c.offer, c.ready, c.pending) && h1.log == h.log + [Sent(id, Refused(NotAttached(ch)))]
      else
        && OnlySlots(h, h1, ch, if granted != [] then None else c.offer, Some(id), [])
        && h1.log == h.log + granted + Handover(ch, id, ChannelPeer, c.pending)
  {
    var h0 := Touch(h, ch);
    TouchQuiet(h, ch);
    QuietKeeps(h, h0);
    assert MemberOk(h0, ch);
    forall x
      ensures Look(h0, x) == Look(h, x)
    {
      TouchLook(h, ch, x);
    }
    var c := h0.channels[ch];
    if id in c.peers {
      var h1 := if c.offer.Some? && c.offer.value != id
                then Post(SetSlots(h0, ch, None, c.ready), c.offer.value, Accept(ch)) else h0;
      DrainKeeps(h1, ch, id);
      DrainHands(h1, ch, id);
      assert h.log + [] == h.log;
    }
  }

  // ---- leaving ----

  /** Detaching tells nobody. It takes the attachment off the client's list, and the client
      off the name, whatever it holds there. */
  lemma DetachTold(h: State, id: Id, ch: string, mode: Mode)
    requires Members(h) && id in h.clients
    ensures
      var h1 := Unregister(h, id, ch, mode);
      && h1.log == h.log
      && (forall x :: Look(h1, x) == if x == ch then WithoutClient(Look(h, x), id) else Look(h, x))
      && h1.clients.Keys == h.clients.Keys && (forall y | y in h.clients && y != id :: h1.clients[y] == h.clients[y])
      && forall a :: a in h1.clients[id].attachments <==> a in h.clients[id].attachments && a != (ch, mode)
  {
    var list := Unlisted(h.clients[id].attachments, ch, mode);
    var h0 := h.(clients := h.clients[id := Client(list)]);
    UnlistedGone(h.clients[id].attachments, ch, mode);
    LeaveEffect(h0, id, ch);
    forall x
      ensures Look(Leave(h0, id, ch), x) == if x == ch then WithoutClient(Look(h, x), id) else Look(h, x)
    {
      if ch in h.channels {
        assert MemberOk(h, ch);
        var h2 := h0.(channels := h0.channels[ch := WithoutClient(h0.channels[ch], id)]);
        assert MemberOk(h2, ch);
        EraseLook(h2, ch, x);
      }
    }
  }

  lemma {:induction false} UnlistedGone(list: seq<(string, Mode)>, ch: string, mode: Mode)
    ensures (ch, mode) !in Unlisted(list, ch, mode)
  {
    if list != [] {
      UnlistedGone(list[1..], ch, mode);
    }
  }
  /** Leaving a name gives up every seat there, a parked offer and being ready, and leaves the
      backlog. */
  lemma LeftBehind(c: Channel, id: Id, mode: Mode)
    ensures Listed(WithoutClient(c, id), mode) == Leaving(Listed(c, mode), id)
    ensures WithoutClient(c, id).offer == if c.offer == Some(id) then None else c.offer
    ensures WithoutClient(c, id).ready == if c.ready == Some(id) then None else c.ready
    ensures WithoutClient(c, id).pending == c.pending
  {
    LeavingErases(Listed(c, mode), id);
  }

  /** Everything else a client may say is answered by nothing and changes nothing. */
  lemma OthersTold(h: State, id: Id, m: Message)
    requires id in h.clients && !(m.ByeMsg? || m.AttachMsg? || m.DetachMsg? || m.PublishMsg? || m.OfferMsg?
      || m.ReadyMsg?)
    ensures var h1 := Handle(h, id, m); h1.log == h.log && h1.clients == h.clients && forall x ::
      Look(h1, x) == Look(h, x)
  {
  }

  // ---- over every run ----

  /** What one step does to the seats of one kind on one name. */
  lemma StepSeats(h: State, s: Step, ch: string, mode: Mode)
    requires Members(h) && Possible(h, s) && !mode.OtherMode?
    ensures
      Listed(Look(Next(h, s), ch), mode) == SeatsThen(Listed(Look(h, ch), mode), Room(Look(h, ch), mode), s, ch, mode)
  {
    hide Look, Register, Unregister, Close, Publish, Offer, RecvReady, Touch, Turned, Leaving, Broadcast, Handover;
    match s
    case Connect(_) => hide Members; Connected(h, s, ch);
    case Lost(id) => GoneSeats(h, id, ch, mode);
    case From(id, m) =>
      match m
      case ByeMsg => GoneSeats(h, id, ch, mode);
      case AttachMsg(at, w) => AttachSeats(h, id, at, w, ch, mode);
      case DetachMsg(at, w) =>
        DetachTold(h, id, at, w);
        LeavingErases(Listed(Look(h, ch), mode), id);
      case PublishMsg(at, p) => var sent := PublishTold(h, id, at, p);
      case OfferMsg(at) => OfferTold(h, id, at);
      case ReadyMsg(at) => ReadyTold(h, id, at);
      case DataAckMsg(at) => TouchLook(h, at, ch);
      case _ =>
  }

  lemma Connected(h: State, s: Step, ch: string)
    requires s.Connect? && Possible(h, s)
    ensures Look(Next(h, s), ch) == Look(h, ch)
  {
  }

  lemma AttachSeats(h: State, id: Id, at: string, w: Mode, ch: string, mode: Mode)
    requires Members(h) && id in h.clients && !mode.OtherMode?
    ensures Listed(Look(Register(h, id, at, w), ch), mode)
         == if at == ch && w == mode && Room(Look(h, ch), mode) then Listed(Look(h, ch), mode) + [id]
            else Listed(Look(h, ch), mode)
  {
    hide Look, Register, Handover;
    RegisterTold(h, id, at, w);
  }

  lemma GoneSeats(h: State, id: Id, ch: string, mode: Mode)
    requires Members(h) && !mode.OtherMode?
    ensures Listed(Look(Close(h, id), ch), mode) == Leaving(Listed(Look(h, ch), mode), id)
  {
    var list := Listed(Look(h, ch), mode);
    LeavingErases(list, id);
    if id in h.clients {
      CloseLook(h, id, ch);
    } else {
      if ch in h.channels {
        assert MemberOk(h, ch);
      }
      EraseTwice(list, id);
    }
  }

  /** The hub's lists are what the history says, at any time. */
  lemma {:induction false} SeatsAlways(steps: seq<Step>, ch: string, mode: Mode)
    requires Run(steps) && !mode.OtherMode?
    ensures Listed(Look(After(steps), ch), mode) == Seats(steps, ch, mode)
    decreases |steps|
  {
    hide Look, Leaving, Next;
    if steps != [] {
      var rest, s := steps[..|steps| - 1], steps[|steps| - 1];
      MembersAlways(rest);
      SeatsAlways(rest, ch, mode);
      SeatsAlways(rest, ch, Writer);
      SeatsAlways(rest, ch, ChannelPeer);
      StepSeats(After(rest), s, ch, mode);
    } else {
      NothingYet(ch, mode);
    }
  }

  lemma NothingYet(ch: string, mode: Mode)
    ensures Listed(Look(Empty, ch), mode) == []
  {
  }

  /** After every run an attachment is admitted exactly if the history says so: a reader
      exactly if somebody holds a seat as a writer, a peer exactly if fewer than two seats
      are taken. Otherwise one refusal is all that happens. */
  lemma AttachAnswered(steps: seq<Step>, id: Id, ch: string, mode: Mode)
    requires Run(steps) && id in After(steps).clients
    ensures
      var h := After(steps);
      var h1 := Next(h, From(id, AttachMsg(ch, mode)));
      if Admitted(steps, ch, mode) then Joined(h, h1, id, ch, mode)
      else Turned(h, h1, id, if mode == ChannelPeer then TwoPeers(ch) else NoPublisher(ch))
  {
    hide Look, Register, Run, After, Joined, Turned;
    MembersAlways(steps);
    SeatsAlways(steps, ch, Writer);
    SeatsAlways(steps, ch, ChannelPeer);
    RegisterTold(After(steps), id, ch, mode);
  }

  // ---- seats and attachments ----

  /** How a client holds an attachment: a seat with it, or none any more, as it has detached
      from the name in another mode since. */
  datatype Hold = No | Seat | Lapsed

  function Holding(steps: seq<Step>, id: Id, ch: string, mode: Mode): Hold
    decreases |steps|
  {
    if steps == [] then No
    else
      var rest := steps[..|steps| - 1];
      HoldThen(Holding(rest, id, ch, mode), Admitted(rest, ch, mode), steps[|steps| - 1], id, ch, mode)
  }

  function HoldThen(before: Hold, admitted: bool, s: Step, id: Id, ch: string, mode: Mode): Hold {
    match s
    case From(who, AttachMsg(at, m)) => if who == id && at == ch && m == mode && admitted then Seat else before
    case From(who, DetachMsg(at, m)) =>
      if who != id || at != ch then before else if m == mode || before == No then No else Lapsed
    case From(who, ByeMsg) => if who == id then No else before
    case Lost(who) => if who == id then No else before
    case _ => before
  }

  lemma {:induction false} LeavingMembers(list: seq<Id>, id: Id)
    ensures forall x :: x in Leaving(list, id) <==> x in list && x != id
  {
    LeavingErases(list, id);
  }

  ghost predicate Attaches(h: State, id: Id, ch: string, mode: Mode) {
    id in h.clients && (ch, mode) in h.clients[id].attachments
  }

  /** What one step does to one attachment. */
  lemma StepAttaches(h: State, s: Step, id: Id, ch: string, mode: Mode)
    requires Members(h) && Possible(h, s) && !mode.OtherMode?
    ensures
      var before, after := Attaches(h, id, ch, mode), Attaches(Next(h, s), id, ch, mode);
      match s
      case From(who, AttachMsg(at, m)) => after == (before
        || (who == id && at == ch && m == mode && Room(Look(h, ch), mode)))
      case From(who, DetachMsg(at, m)) => after == (before && !(who == id && at == ch && m == mode))
      case From(who, ByeMsg) => after == (before && who != id)
      case Lost(who) => after == (before && who != id)
      case _ => after == before
  {
    hide Look, Register, Unregister, Close, Publish, Offer, RecvReady, Touch, Leaving, Broadcast, Handover;
    match s
    case Connect(_) =>
    case Lost(who) =>
      if who in h.clients {
        CloseLook(h, who, ch);
      } else {
        GoneAlready(h, who);
      }
    case From(who, m) =>
      match m
      case ByeMsg => CloseLook(h, who, ch);
      case AttachMsg(at, w) => RegisterTold(h, who, at, w);
      case DetachMsg(at, w) => DetachTold(h, who, at, w);
      case PublishMsg(at, p) => var sent := PublishTold(h, who, at, p);
      case OfferMsg(at) => OfferTold(h, who, at);
      case ReadyMsg(at) => ReadyTold(h, who, at);
      case DataAckMsg(at) => Touched(h, at);
      case _ =>
  }

  lemma GoneAlready(h: State, id: Id)
    requires id !in h.clients
    ensures Close(h, id) == h
  {
  }

  lemma Touched(h: State, at: string)
    ensures Touch(h, at).clients == h.clients
  {
  }

  /** A client has an attachment, as long as the history says that it holds it; it has the
      seat exactly if it has not lapsed. */
  lemma {:induction false} HoldingAlways(steps: seq<Step>, id: Id, ch: string, mode: Mode)
    requires Run(steps) && !mode.OtherMode?
    ensures Attaches(After(steps), id, ch, mode) <==> Holding(steps, id, ch, mode) != No
    ensures id in Seats(steps, ch, mode) <==> Holding(steps, id, ch, mode) == Seat
    decreases |steps|
  {
    hide Look, Leaving, Next, Attaches, Room;
    if steps != [] {
      var rest, s := steps[..|steps| - 1], steps[|steps| - 1];
      MembersAlways(rest);
      HoldingAlways(rest, id, ch, mode);
      StepAttaches(After(rest), s, id, ch, mode);
      RoomIsAdmitted(rest, ch, mode);
      match s
      case From(who, DetachMsg(_, _)) => LeavingMembers(Seats(rest, ch, mode), who);
      case From(who, ByeMsg) => LeavingMembers(Seats(rest, ch, mode), who);
      case Lost(who) => LeavingMembers(Seats(rest, ch, mode), who);
      case _ =>
    } else {
      NobodyYet(id, ch, mode);
    }
  }

  lemma NobodyYet(id: Id, ch: string, mode: Mode)
    ensures !Attaches(Empty, id, ch, mode)
  {
  }

  lemma RoomIsAdmitted(steps: seq<Step>, ch: string, mode: Mode)
    requires Run(steps) && !mode.OtherMode?
    ensures Room(Look(After(steps), ch), mode) <==> Admitted(steps, ch, mode)
  {
    hide Look, Run, After;
    SeatsAlways(steps, ch, Writer);
    SeatsAlways(steps, ch, ChannelPeer);
  }

  /** The client has an attachment as a writer that has not lapsed. */
  ghost predicate Publishing(steps: seq<Step>, id: Id, ch: string)
    requires Run(steps)
  {
    Attaches(After(steps), id, ch, Writer) && Holding(steps, id, ch, Writer) != Lapsed
  }

  lemma PublishingSeated(steps: seq<Step>, id: Id, ch: string)
    requires Run(steps)
    ensures Publishing(steps, id, ch) <==> id in Seats(steps, ch, Writer)
  {
    HoldingAlways(steps, id, ch, Writer);
  }

  /** A reader is refused exactly if no live client has an attachment as a writer that has
      not lapsed. */
  lemma RefusedExactly(steps: seq<Step>, ch: string, mode: Mode)
    requires Run(steps) && IsReader(mode)
    ensures !Admitted(steps, ch, mode) <==> forall id :: !Publishing(steps, id, ch)
  {
    var seats := Seats(steps, ch, Writer);
    assert Admitted(steps, ch, mode) <==> seats != [];
    hide Publishing, Seats, Admitted;
    forall id
      ensures Publishing(steps, id, ch) <==> id in seats
    {
      PublishingSeated(steps, id, ch);
    }
    if seats != [] {
      assert Publishing(steps, seats[0], ch) by { assert seats[0] in seats; }
    }
  }

  lemma RunGoesOn(steps: seq<Step>, m: Message, id: Id, other: Id)
    requires Run(steps) && id in After(steps).clients && other !in After(steps).clients && id != other
    requires m.AttachMsg? || m.DetachMsg?
    ensures Run(steps + [From(id, m)]) && id in After(steps + [From(id, m)]).clients
    ensures other !in After(steps + [From(id, m)]).clients
  {
    hide Run, After, Register, Unregister, Look, Handover;
    MembersAlways(steps);
    RunMore(steps, From(id, m));
    if m.AttachMsg? {
      RegisterTold(After(steps), id, m.channel, m.mode);
    } else {
      DetachTold(After(steps), id, m.channel, m.mode);
    }
  }

  lemma RunBegins(steps: seq<Step>, id: Id)
    requires Run(steps) && id !in After(steps).clients
    ensures Run(steps + [Connect(id)]) && After(steps + [Connect(id)]).clients == After(steps).clients[id := Client([])]
  {
    hide Run, After;
    RunMore(steps, Connect(id));
  }

  lemma SeatsMore(steps: seq<Step>, s: Step, ch: string, mode: Mode)
    ensures Seats(steps + [s], ch, mode) == SeatsThen(Seats(steps, ch, mode), Admitted(steps, ch, mode), s, ch, mode)
  {
    assert (steps + [s])[..|steps|] == steps;
  }

  lemma HoldingMore(steps: seq<Step>, s: Step, id: Id, ch: string, mode: Mode)
    ensures Holding(steps + [s], id, ch, mode)
         == HoldThen(Holding(steps, id, ch, mode), Admitted(steps, ch, mode), s, id, ch, mode)
  {
    assert (steps + [s])[..|steps|] == steps;
  }

  /** Client 1 is there and 2 is not; who sits as a writer, and how 1 holds on to that. */
  ghost predicate Stage(steps: seq<Step>, ch: string, seats: seq<Id>, hold: Hold) {
    && Run(steps) && 1 in After(steps).clients && 2 !in After(steps).clients
    && Seats(steps, ch, Writer) == seats && Holding(steps, 1, ch, Writer) == hold
  }

  lemma StageMore(steps: seq<Step>, ch: string, seats: seq<Id>, hold: Hold, m: Message)
    requires Stage(steps, ch, seats, hold) && (m.AttachMsg? || m.DetachMsg?)
    ensures Stage(steps + [From(1, m)], ch, SeatsThen(seats, true, From(1, m), ch, Writer),
      HoldThen(hold, true, From(1, m), 1, ch, Writer))
  {
    hide Run, After, Seats, Holding, Leaving;
    assert Admitted(steps, ch, Writer);
    RunGoesOn(steps, m, 1, 2);
    SeatsMore(steps, From(1, m), ch, Writer);
    HoldingMore(steps, From(1, m), 1, ch, Writer);
  }

  lemma StageFirst(ch: string)
    ensures Stage([Connect(1)], ch, [], No)
  {
    var r0: seq<Step> := [];
    RunBegins(r0, 1);
    SeatsMore(r0, Connect(1), ch, Writer);
    HoldingMore(r0, Connect(1), 1, ch, Writer);
    assert r0 + [Connect(1)] == [Connect(1)];
  }

  /** Attached as a writer and as a reader, then detached as a reader. */
  function Lapse(ch: string): seq<Step> {
    [Connect(1)] + [From(1, AttachMsg(ch, Writer))] + [From(1, AttachMsg(ch, QueueIn))]
    + [From(1, DetachMsg(ch, QueueIn))]
  }

  lemma LapseStage(ch: string)
    ensures Stage(Lapse(ch), ch, [], Lapsed)
  {
    hide Stage;
    StageFirst(ch);
    StageMore([Connect(1)], ch, [], No, AttachMsg(ch, Writer));
    assert [] + [1] == [1];
    StageMore([Connect(1)] + [From(1, AttachMsg(ch, Writer))], ch, [1], Seat, AttachMsg(ch, QueueIn));
    StageMore([Connect(1)] + [From(1, AttachMsg(ch, Writer))] + [From(1, AttachMsg(ch, QueueIn))], ch, [1], Seat,
      DetachMsg(ch, QueueIn));
    assert Leaving([1], 1) == [] by { assert [1][..0] == []; }
  }

  /** After that the client, still there, has its attachment as a writer, and a reader who
      comes is refused. */
  lemma LapsedRun(ch: string)
    ensures
      var steps := Lapse(ch) + [Connect(2)];
      && Run(steps) && Attaches(After(steps), 1, ch, Writer) && 2 in After(steps).clients
      && Turned(After(steps), Next(After(steps), From(2, AttachMsg(ch, QueueIn))), 2, NoPublisher(ch))
  {
    hide Lapse, Attaches, Turned, Next, Run, After, Seats, Holding;
    LapseStage(ch);
    RunBegins(Lapse(ch), 2);
    SeatsMore(Lapse(ch), Connect(2), ch, Writer);
    HoldingMore(Lapse(ch), Connect(2), 1, ch, Writer);
    HoldingAlways(Lapse(ch) + [Connect(2)], 1, ch, Writer);
    AttachAnswered(Lapse(ch) + [Connect(2)], 2, ch, QueueIn);
  }
}
