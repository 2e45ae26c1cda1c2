/** The pipe hub's broker state and what each client message does to it.

    Writing to a live client always succeeds here; losing a client is a step of its own.
    `log` records everything the hub sends and every payload it takes in or hands on. */
module Hub {
  import opened Bytes
  import opened Syntax

  type Id = nat

  type Payload = seq<Byte>

  datatype Mode = Writer | QueueIn | BroadcastIn | ChannelPeer | OtherMode(code: Byte)

  /** Why an error is sent; its text names the channel. */
  datatype Reason = NoPublisher(channel: string) | TwoPeers(channel: string) | Full(channel: string)
      | NotAttached(channel: string)

  datatype Frame =
    | Ack
    | Refused(reason: Reason)
    | Deliver(channel: string, mode: Mode, payload: Payload)
    | Accept(channel: string)
    | Busy(channel: string)

  datatype Event =
    | Sent(to: Id, frame: Frame)
    | Offered(from: Id, channel: string)
    | Accepted(channel: string, payload: Payload)
    | Dispatched(channel: string, payload: Payload)
    | Gone(id: Id)

  datatype Client = Client(attachments: seq<(string, Mode)>)

  datatype Channel = Channel(
    queueReaders: seq<Id>, broadcastReaders: seq<Id>, writers: seq<Id>, peers: seq<Id>,
    pending: seq<Payload>, cursor: nat, offer: Option<Id>, ready: Option<Id>)

  datatype State = State(clients: map<Id, Client>, channels: map<string, Channel>, log: seq<Event>)

  const MaxPending: nat := 4096

  const NoChannel := Channel([], [], [], [], [], 0, None, None)

  const Empty := State(map[], map[], [])

  predicate HasReader(c: Channel) {
    c.queueReaders != [] || c.broadcastReaders != []
  }

  /** A list without any occurrence of `id`. */
  function Erase(list: seq<Id>, id: Id): (r: seq<Id>)
    ensures forall x | x in r :: x in list && x != id
    ensures forall x | x in list && x != id :: x in r
    ensures |r| <= |list|
  {
    if list == [] then [] else (if list[0] == id then [] else [list[0]]) + Erase(list[1..], id)
  }

  /** Part by part: every other id keeps its place and its number, `id` leaves no gap. */
  lemma {:induction false} ErasedInPlace(a: seq<Id>, b: seq<Id>, id: Id)
    ensures Erase(a + b, id) == Erase(a, id) + Erase(b, id)
  {
    if a == [] {
      assert a + b == b;
    } else {
      ErasedInPlace(a[1..], b, id);
      assert (a + b)[0] == a[0] && (a + b)[1..] == a[1..] + b;
      Glued(if a[0] == id then [] else [a[0]], Erase(a[1..], id), Erase(b, id));
    }
  }

  lemma Glued(a: seq<Id>, b: seq<Id>, c: seq<Id>)
    ensures a + (b + c) == a + b + c
  {
  }

  function Clear(slot: Option<Id>, id: Id): Option<Id> {
    if slot == Some(id) then None else slot
  }

  /** Take a client out of every list and slot of a channel. */
  function WithoutClient(c: Channel, id: Id): Channel {
    c.(queueReaders := Erase(c.queueReaders, id), broadcastReaders := Erase(c.broadcastReaders, id),
       writers := Erase(c.writers, id), peers := Erase(c.peers, id),
       offer := Clear(c.offer, id), ready := Clear(c.ready, id))
  }

  predicate Idle(c: Channel) {
    !HasReader(c) && c.pending == [] && c.writers == [] && c.peers == []
  }

  // ---- steps on the state ----

  /** Looking a channel up creates it. */
  function Touch(h: State, ch: string): (r: State)
    ensures ch in r.channels
  {
    if ch in h.channels then h else h.(channels := h.channels[ch := NoChannel])
  }

  function MaybeErase(h: State, ch: string): State {
    if ch in h.channels && Idle(h.channels[ch]) then h.(channels := h.channels - {ch}) else h
  }

  function Note(h: State, e: Event): State {
    h.(log := h.log + [e])
  }

  /** Write a frame to a client, if it is there. */
  function Post(h: State, id: Id, f: Frame): State {
    if id in h.clients then Note(h, Sent(id, f)) else h
  }

  function PostAll(h: State, ids: seq<Id>, f: Frame): State
    decreases |ids|
  {
    if ids == [] then h else PostAll(Post(h, ids[0], f), ids[1..], f)
  }

  /** The log and nothing else differs. */
  lemma {:induction false} PostAllFrame(h: State, ids: seq<Id>, f: Frame)
    ensures PostAll(h, ids, f).clients == h.clients && PostAll(h, ids, f).channels == h.channels
    decreases |ids|
  {
    if ids != [] {
      PostAllFrame(Post(h, ids[0], f), ids[1..], f);
    }
  }

  /** Hand one payload to the readers: a copy to every broadcast reader, and one copy to
      the queue reader whose turn it is. */
  function Dispatch(h: State, ch: string, p: Payload): (r: State)
    requires ch in h.channels
    ensures r.clients == h.clients && r.channels.Keys == h.channels.Keys && ch in r.channels
  {
    var c := h.channels[ch];
    var h1 := PostAll(Note(h, Dispatched(ch, p)), c.broadcastReaders, Deliver(ch, BroadcastIn, p));
    PostAllFrame(Note(h, Dispatched(ch, p)), c.broadcastReaders, Deliver(ch, BroadcastIn, p));
    if c.queueReaders == [] then h1
    else
      var h2 := h1.(channels := h1.channels[ch := c.(cursor := (c.cursor + 1) % U64)]);
      Post(h2, c.queueReaders[c.cursor % |c.queueReaders|], Deliver(ch, QueueIn, p))
  }

  function Pop(h: State, ch: string): (r: State)
    requires ch in h.channels && h.channels[ch].pending != []
    ensures ch in r.channels
  {
    h.(channels := h.channels[ch := h.channels[ch].(pending := h.channels[ch].pending[1..])])
  }

  /** Hand the backlog to the readers. */
  function Flush(h: State, ch: string): State
    requires ch in h.channels
    decreases |h.channels[ch].pending|
  {
    var c := h.channels[ch];
    if c.pending == [] || !HasReader(c) then h
    else
      DispatchKeeps(Pop(h, ch), ch, c.pending[0]);
      Flush(Dispatch(Pop(h, ch), ch, c.pending[0]), ch)
  }

  lemma DispatchKeeps(h: State, ch: string, p: Payload)
    requires ch in h.channels
    ensures
      var c, d := h.channels[ch], Dispatch(h, ch, p).channels[ch];
      d == c.(cursor := d.cursor)
  {
    PostAllFrame(Note(h, Dispatched(ch, p)), h.channels[ch].broadcastReaders, Deliver(ch, BroadcastIn, p));
  }

  /** Hand the backlog to one peer. */
  function Drain(h: State, ch: string, id: Id): State
    requires ch in h.channels
    decreases |h.channels[ch].pending|
  {
    var c := h.channels[ch];
    if c.pending == [] then h
    else Drain(Post(Note(Pop(h, ch), Dispatched(ch, c.pending[0])), id, Deliver(ch, ChannelPeer, c.pending[0])), ch, id)
  }

  function Attached(c: Channel, id: Id, mode: Mode): Channel {
    match mode
    case Writer => c.(writers := c.writers + [id])
    case BroadcastIn => c.(broadcastReaders := c.broadcastReaders + [id])
    case QueueIn => c.(queueReaders := c.queueReaders + [id])
    case ChannelPeer => c.(peers := c.peers + [id])
    case OtherMode(_) => c
  }

  predicate IsReader(mode: Mode) {
    mode == QueueIn || mode == BroadcastIn
  }

  function Register(h: State, id: Id, ch: string, mode: Mode): State
    requires id in h.clients
  {
    var h0 := Touch(h, ch);
    var c := h0.channels[ch];
    if IsReader(mode) && c.writers == [] then MaybeErase(Post(h0, id, Refused(NoPublisher(ch))), ch)
    else if mode == ChannelPeer && |c.peers| >= 2 then MaybeErase(Post(h0, id, Refused(TwoPeers(ch))), ch)
    else
      var h1 := Post(Attach(h0, id, ch, mode), id, Ack);
      if IsReader(mode) then Flush(h1, ch)
      else if mode == ChannelPeer then Drain(h1, ch, id)
      else h1
  }

  function Attach(h: State, id: Id, ch: string, mode: Mode): (r: State)
    requires id in h.clients && ch in h.channels
    ensures ch in r.channels && id in r.clients
  {
    h.(clients := h.clients[id := Client(h.clients[id].attachments + [(ch, mode)])],
       channels := h.channels[ch := Attached(h.channels[ch], id, mode)])
  }

  function Unlisted(list: seq<(string, Mode)>, ch: string, mode: Mode): (r: seq<(string, Mode)>)
    ensures forall x | x in r :: x in list
    ensures forall x | x in list && x != (ch, mode) :: x in r
  {
    if list == [] then []
    else (if list[0] == (ch, mode) then [] else [list[0]]) + Unlisted(list[1..], ch, mode)
  }

  /** Take a client out of one channel, if the channel is there. */
  function Leave(h: State, id: Id, ch: string): State {
    if ch in h.channels then MaybeErase(h.(channels := h.channels[ch := WithoutClient(h.channels[ch], id)]), ch) else h
  }

  function Unregister(h: State, id: Id, ch: string, mode: Mode): State
    requires id in h.clients
  {
    Leave(h.(clients := h.clients[id := Client(Unlisted(h.clients[id].attachments, ch, mode))]), id, ch)
  }

  function LeaveAll(h: State, id: Id, list: seq<(string, Mode)>): State
    decreases |list|
  {
    if list == [] then h else LeaveAll(Leave(h, id, list[0].0), id, list[1..])
  }

  function Close(h: State, id: Id): State {
    if id !in h.clients then h
    else
      var h1 := LeaveAll(h, id, h.clients[id].attachments);
      Note(h1.(clients := h1.clients - {id}), Gone(id))
  }

  /** The other slots of a channel: everyone a peer's payload goes to. */
  function Others(h: State, peers: seq<Id>, id: Id): (r: seq<Id>)
    ensures forall x | x in r :: x in peers && x != id && x in h.clients
    ensures forall x | x in peers && x != id && x in h.clients :: x in r
    ensures |r| <= |peers|
  {
    if peers == [] then []
    else (if peers[0] == id || peers[0] !in h.clients then [] else [peers[0]]) + Others(h, peers[1..], id)
  }

  /** Part by part: the other slots stay in order, each as often as it is there. */
  lemma {:induction false} OthersInPlace(h: State, a: seq<Id>, b: seq<Id>, id: Id)
    ensures Others(h, a + b, id) == Others(h, a, id) + Others(h, b, id)
  {
    if a == [] {
      assert a + b == b;
    } else {
      OthersInPlace(h, a[1..], b, id);
      assert (a + b)[0] == a[0] && (a + b)[1..] == a[1..] + b;
      Glued(if a[0] == id || a[0] !in h.clients then [] else [a[0]], Others(h, a[1..], id), Others(h, b, id));
    }
  }

  function Enqueue(h: State, ch: string, p: Payload): (r: State)
    requires ch in h.channels
    ensures ch in r.channels && r.clients == h.clients
  {
    Note(h.(channels := h.channels[ch := h.channels[ch].(pending := h.channels[ch].pending + [p])]), Accepted(ch, p))
  }

  function PublishPeer(h: State, id: Id, ch: string, p: Payload): State
    requires ch in h.channels
  {
    var c := h.channels[ch];
    var others := Others(h, c.peers, id);
    if others != [] then
      Post(PostAll(Note(Note(h, Accepted(ch, p)), Dispatched(ch, p)), others, Deliver(ch, ChannelPeer, p)), id, Ack)
    else if |c.pending| >= MaxPending then Post(h, id, Refused(Full(ch)))
    else
      var h1 := Enqueue(h, ch, p);
      if c.ready.Some? && c.ready.value != id && c.ready.value in h.clients then
        Post(Drain(h1, ch, c.ready.value), id, Ack)
      else Post(h1, id, Ack)
  }

  function PublishPipe(h: State, id: Id, ch: string, p: Payload): State
    requires ch in h.channels
  {
    var c := h.channels[ch];
    if HasReader(c) then Post(Dispatch(Note(h, Accepted(ch, p)), ch, p), id, Ack)
    else if |c.pending| >= MaxPending then Post(h, id, Refused(Full(ch)))
    else Post(Enqueue(h, ch, p), id, Ack)
  }

  function Publish(h: State, id: Id, ch: string, p: Payload): State {
    var h0 := Touch(h, ch);
    if id in h0.channels[ch].peers then PublishPeer(h0, id, ch, p) else PublishPipe(h0, id, ch, p)
  }

  function SetSlots(h: State, ch: string, offer: Option<Id>, ready: Option<Id>): (r: State)
    requires ch in h.channels
    ensures ch in r.channels
  {
    h.(channels := h.channels[ch := h.channels[ch].(offer := offer, ready := ready)])
  }

  /** A peer wants to send. Ids are never 0, which the hub reads as no peer at all. */
  function Offer(h: State, id: Id, ch: string): State {
    var h0 := Note(Touch(h, ch), Offered(id, ch));
    var c := h0.channels[ch];
    if id !in c.peers then Post(h0, id, Refused(NotAttached(ch)))
    else if c.offer.Some? && c.offer.value != id then
      // both peers tried to send at once
      Post(Post(SetSlots(h0, ch, None, c.ready), id, Busy(ch)), c.offer.value, Busy(ch))
    else if (exists x | x in c.peers :: x != id) || (c.ready.Some? && c.ready.value != id) then
      Post(SetSlots(h0, ch, None, None), id, Accept(ch))
    else SetSlots(h0, ch, Some(id), c.ready)
  }

  /** A peer waits for a payload: a parked offer is granted and the backlog is its. */
  function RecvReady(h: State, id: Id, ch: string): State {
    var h0 := Touch(h, ch);
    var c := h0.channels[ch];
    if id !in c.peers then Post(h0, id, Refused(NotAttached(ch)))
    else
      var h1 := if c.offer.Some? && c.offer.value != id
                then Post(SetSlots(h0, ch, None, c.ready), c.offer.value, Accept(ch)) else h0;
      DrainKeeps(h1, ch, id);
      var h2 := if id in h1.clients then Drain(h1, ch, id) else h1;
      SetSlots(h2, ch, h2.channels[ch].offer, Some(id))
  }

  lemma {:induction false} DrainKeeps(h: State, ch: string, id: Id)
    requires ch in h.channels
    ensures Drain(h, ch, id).clients == h.clients && ch in Drain(h, ch, id).channels
    ensures Drain(h, ch, id).channels == h.channels[ch := h.channels[ch].(pending := [])]
    decreases |h.channels[ch].pending|
  {
    var c := h.channels[ch];
    if c.pending == [] {
      assert h.channels == h.channels[ch := c];
    } else {
      DrainKeeps(Post(Note(Pop(h, ch), Dispatched(ch, c.pending[0])), id, Deliver(ch, ChannelPeer, c.pending[0])), ch,
        id);
    }
  }

  // ---- runs ----

  /** What travels between a client and the hub. */
  datatype Message =
    | HelloMsg(pid: nat, kind: Byte)
    | ByeMsg
    | AttachMsg(channel: string, mode: Mode)
    | DetachMsg(channel: string, mode: Mode)
    | PublishMsg(channel: string, payload: Payload)
    | DeliverMsg(channel: string, mode: Mode, payload: Payload)
    | AckMsg
    | ErrorMsg(text: string)
    | OfferMsg(channel: string)
    | AcceptMsg(channel: string)
    | BusyMsg(channel: string)
    | ReadyMsg(channel: string)
    | DataAckMsg(channel: string)
    | UnknownMsg(op: Byte)

  datatype Step = Connect(id: Id) | Lost(id: Id) | From(id: Id, message: Message)

  function Handle(h: State, id: Id, m: Message): State
    requires id in h.clients
  {
    match m
    case ByeMsg => Close(h, id)
    case AttachMsg(ch, mode) => Register(h, id, ch, mode)
    case DetachMsg(ch, mode) => Unregister(h, id, ch, mode)
    case PublishMsg(ch, p) => Publish(h, id, ch, p)
    case OfferMsg(ch) => Offer(h, id, ch)
    case ReadyMsg(ch) => RecvReady(h, id, ch)
    case DataAckMsg(ch) => Touch(h, ch)
    case _ => h
  }

  predicate Possible(h: State, s: Step) {
    match s
    case Connect(id) => id !in h.clients
    case Lost(id) => true
    case From(id, _) => id in h.clients
  }

  function Next(h: State, s: Step): State
    requires Possible(h, s)
  {
    match s
    case Connect(id) => h.(clients := h.clients[id := Client([])])
    case Lost(id) => Close(h, id)
    case From(id, m) => Handle(h, id, m)
  }

  /** A run from a hub that has just started. */
  predicate Run(steps: seq<Step>)
    decreases |steps|, 0
  {
    steps == [] ||
    (Run(steps[..|steps| - 1]) && Possible(After(steps[..|steps| - 1]), steps[|steps| - 1]))
  }

  function After(steps: seq<Step>): State
    requires Run(steps)
    decreases |steps|, 1
  {
    if steps == [] then Empty else Next(After(steps[..|steps| - 1]), steps[|steps| - 1])
  }

  /** A run goes on with any step that is possible. */
  lemma RunMore(steps: seq<Step>, s: Step)
    requires Run(steps) && Possible(After(steps), s)
    ensures Run(steps + [s]) && After(steps + [s]) == Next(After(steps), s)
  {
    assert (steps + [s])[..|steps|] == steps;
  }
}
