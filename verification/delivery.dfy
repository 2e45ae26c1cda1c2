/** What happens to payloads. On a name used as a pipe, and on a name used as a channel,
    nothing is lost, repeated or reordered: the payloads the hub took in are those it
    handed on followed by those it still holds. */
module Delivery {
  import opened Bytes
  import opened Syntax
  import opened Hub
  import opened Membership

  /** Payloads the hub took in for `ch`. */
  function Taken(log: seq<Event>, ch: string): seq<Payload> {
    if log == [] then []
    else Taken(log[..|log| - 1], ch) + TakenBy(log[|log| - 1], ch)
  }

  function TakenBy(e: Event, ch: string): seq<Payload> {
    if e.Accepted? && e.channel == ch then [e.payload] else []
  }

  /** Payloads the hub handed on for `ch`. */
  function HandedOn(log: seq<Event>, ch: string): seq<Payload> {
    if log == [] then []
    else HandedOn(log[..|log| - 1], ch) + HandedBy(log[|log| - 1], ch)
  }

  function HandedBy(e: Event, ch: string): seq<Payload> {
    if e.Dispatched? && e.channel == ch then [e.payload] else []
  }

  function Backlog(h: State, ch: string): seq<Payload> {
    if ch in h.channels then h.channels[ch].pending else []
  }

  /** In = out ++ pending, in order. */
  predicate Conserved(h: State, ch: string) {
    Taken(h.log, ch) == HandedOn(h.log, ch) + Backlog(h, ch)
  }

  lemma NoteEffect(h: State, e: Event, ch: string)
    ensures Taken(Note(h, e).log, ch) == Taken(h.log, ch) + TakenBy(e, ch)
    ensures HandedOn(Note(h, e).log, ch) == HandedOn(h.log, ch) + HandedBy(e, ch)
    ensures TakenBy(e, ch) == [] ==> Taken(Note(h, e).log, ch) == Taken(h.log, ch)
    ensures HandedBy(e, ch) == [] ==> HandedOn(Note(h, e).log, ch) == HandedOn(h.log, ch)
  {
    assert (h.log + [e])[..|h.log|] == h.log;
    AddNone(Taken(h.log, ch));
    AddNone(HandedOn(h.log, ch));
  }

  lemma AddNone(s: seq<Payload>)
    ensures s + [] == s
  {
  }

  /** Frames do not count. */
  lemma PostEffect(h: State, id: Id, f: Frame, ch: string)
    ensures Taken(Post(h, id, f).log, ch) == Taken(h.log, ch) && HandedOn(Post(h, id, f).log, ch) == HandedOn(h.log, ch)
  {
    NoteEffect(h, Sent(id, f), ch);
  }

  lemma {:induction false} PostAllEffect(h: State, ids: seq<Id>, f: Frame, ch: string)
    ensures Taken(PostAll(h, ids, f).log, ch) == Taken(h.log, ch)
    ensures HandedOn(PostAll(h, ids, f).log, ch) == HandedOn(h.log, ch)
    decreases |ids|
  {
    if ids != [] {
      PostEffect(h, ids[0], f, ch);
      PostAllEffect(Post(h, ids[0], f), ids[1..], f, ch);
    }
  }

  /** A step that does nothing to the payloads of `ch`. */
  predicate SamePayloads(h: State, h1: State, ch: string) {
    && Taken(h1.log, ch) == Taken(h.log, ch) && HandedOn(h1.log, ch) == HandedOn(h.log, ch)
    && Backlog(h1, ch) == Backlog(h, ch)
  }

  /** The log that a dispatch leaves, up to frames. */
  lemma DispatchLog(h: State, at: string, p: Payload, ch: string)
    requires at in h.channels
    ensures
      var h0, h1 := Note(h, Dispatched(at, p)), Dispatch(h, at, p);
      Taken(h1.log, ch) == Taken(h0.log, ch) && HandedOn(h1.log, ch) == HandedOn(h0.log, ch)
  {
    var c, h0, f := h.channels[at], Note(h, Dispatched(at, p)), Deliver(at, BroadcastIn, p);
    var h1 := PostAll(h0, c.broadcastReaders, f);
    PostAllEffect(h0, c.broadcastReaders, f, ch);
    PostAllFrame(h0, c.broadcastReaders, f);
    if c.queueReaders != [] {
      var h2 := h1.(channels := h1.channels[at := c.(cursor := (c.cursor + 1) % U64)]);
      PostEffect(h2, c.queueReaders[c.cursor % |c.queueReaders|], Deliver(at, QueueIn, p), ch);
    }
  }

  lemma DispatchOwn(h: State, ch: string, p: Payload)
    requires ch in h.channels
    ensures
      var h1 := Dispatch(h, ch, p);
      Taken(h1.log, ch) == Taken(h.log, ch) && Backlog(h1, ch) == Backlog(h, ch)
        && HandedOn(h1.log, ch) == HandedOn(h.log, ch) + [p]
  {
    DispatchLog(h, ch, p, ch);
    NoteEffect(h, Dispatched(ch, p), ch);
    DispatchKeeps(h, ch, p);
  }

  lemma DispatchElsewhere(h: State, at: string, p: Payload)
    requires at in h.channels
    ensures forall x | x in h.channels && x != at :: Dispatch(h, at, p).channels[x] == h.channels[x]
  {
    PostAllFrame(Note(h, Dispatched(at, p)), h.channels[at].broadcastReaders, Deliver(at, BroadcastIn, p));
  }

  lemma DispatchOther(h: State, at: string, p: Payload, ch: string)
    requires at in h.channels && at != ch
    ensures SamePayloads(h, Dispatch(h, at, p), ch)
  {
    DispatchLog(h, at, p, ch);
    NoteEffect(h, Dispatched(at, p), ch);
    DispatchElsewhere(h, at, p);
  }

  /** Handing the head of the backlog on keeps what is out and pending together. */
  lemma HeadMoves(done: seq<Payload>, pending: seq<Payload>)
    requires pending != []
    ensures (done + [pending[0]]) + pending[1..] == done + pending
  {
    assert pending == [pending[0]] + pending[1..];
  }

  lemma {:induction false} FlushOwn(h: State, ch: string)
    requires ch in h.channels
    ensures
      var h1 := Flush(h, ch);
      && Taken(h1.log, ch) == Taken(h.log, ch)
      && HandedOn(h1.log, ch) + Backlog(h1, ch) == HandedOn(h.log, ch) + Backlog(h, ch)
    decreases |h.channels[ch].pending|
  {
    var c := h.channels[ch];
    if c.pending != [] && HasReader(c) {
      var h1 := Pop(h, ch);
      DispatchKeeps(h1, ch, c.pending[0]);
      DispatchOwn(h1, ch, c.pending[0]);
      FlushOwn(Dispatch(h1, ch, c.pending[0]), ch);
      HeadMoves(HandedOn(h.log, ch), c.pending);
    }
  }

  /** A flush leaves no backlog where there is a reader, and changes nothing else. */
  lemma {:induction false} FlushState(h: State, ch: string)
    requires ch in h.channels
    ensures
      var h1 := Flush(h, ch);
      && ch in h1.channels && h1.clients == h.clients && h1.channels.Keys == h.channels.Keys
      && (HasReader(h.channels[ch]) ==> h1.channels[ch].pending == [])
      && (!HasReader(h.channels[ch]) ==> h1 == h)
      && Roster(h1.channels[ch]) == Roster(h.channels[ch])
      && (forall x | x in h.channels && x != ch :: h1.channels[x] == h.channels[x])
    decreases |h.channels[ch].pending|
  {
    var c := h.channels[ch];
    if c.pending != [] && HasReader(c) {
      var h1 := Pop(h, ch);
      DispatchKeeps(h1, ch, c.pending[0]);
      DispatchElsewhere(h1, ch, c.pending[0]);
      FlushState(Dispatch(h1, ch, c.pending[0]), ch);
    }
  }

  lemma {:induction false} FlushOther(h: State, at: string, ch: string)
    requires at in h.channels && at != ch
    ensures SamePayloads(h, Flush(h, at), ch)
    decreases |h.channels[at].pending|
  {
    var c := h.channels[at];
    if c.pending != [] && HasReader(c) {
      var h1 := Pop(h, at);
      DispatchKeeps(h1, at, c.pending[0]);
      DispatchOther(h1, at, c.pending[0], ch);
      FlushOther(Dispatch(h1, at, c.pending[0]), at, ch);
    }
  }

  function DrainStep(h: State, at: string, id: Id): (r: State)
    requires at in h.channels && h.channels[at].pending != []
    ensures at in r.channels && r.clients == h.clients && r.channels == Pop(h, at).channels
  {
    var p := h.channels[at].pending[0];
    Post(Note(Pop(h, at), Dispatched(at, p)), id, Deliver(at, ChannelPeer, p))
  }

  lemma DrainStepLog(h: State, at: string, id: Id, ch: string)
    requires at in h.channels && h.channels[at].pending != []
    ensures
      var p, h1 := h.channels[at].pending[0], DrainStep(h, at, id);
      && Taken(h1.log, ch) == Taken(h.log, ch)
      && HandedOn(h1.log, ch) == HandedOn(h.log, ch) + HandedBy(Dispatched(at, p), ch)
  {
    var p := h.channels[at].pending[0];
    NoteEffect(Pop(h, at), Dispatched(at, p), ch);
    PostEffect(Note(Pop(h, at), Dispatched(at, p)), id, Deliver(at, ChannelPeer, p), ch);
  }

  lemma {:induction false} DrainOwn(h: State, ch: string, id: Id)
    requires ch in h.channels
    ensures
      var h1 := Drain(h, ch, id);
      Taken(h1.log, ch) == Taken(h.log, ch) && HandedOn(h1.log, ch) == HandedOn(h.log, ch) + Backlog(h, ch)
        && Backlog(h1, ch) == []
    decreases |h.channels[ch].pending|
  {
    var c := h.channels[ch];
    DrainKeeps(h, ch, id);
    if c.pending == [] {
    } else {
      DrainStepLog(h, ch, id, ch);
      DrainOwn(DrainStep(h, ch, id), ch, id);
      HeadMoves(HandedOn(h.log, ch), c.pending);
    }
  }

  lemma {:induction false} DrainOther(h: State, at: string, id: Id, ch: string)
    requires at in h.channels && at != ch
    ensures SamePayloads(h, Drain(h, at, id), ch)
    decreases |h.channels[at].pending|
  {
    DrainKeeps(h, at, id);
    if h.channels[at].pending != [] {
      DrainStepLog(h, at, id, ch);
      DrainOther(DrainStep(h, at, id), at, id, ch);
    }
  }

  lemma EnqueueOwn(h: State, ch: string, p: Payload)
    requires ch in h.channels
    ensures
      var h1 := Enqueue(h, ch, p);
      Taken(h1.log, ch) == Taken(h.log, ch) + [p] && HandedOn(h1.log, ch) == HandedOn(h.log, ch)
        && Backlog(h1, ch) == Backlog(h, ch) + [p]
  {
    NoteEffect(h.(channels := h.channels[ch := h.channels[ch].(pending := h.channels[ch].pending + [p])]),
      Accepted(ch, p), ch);
  }

  lemma EnqueueOther(h: State, at: string, p: Payload, ch: string)
    requires at in h.channels && at != ch
    ensures SamePayloads(h, Enqueue(h, at, p), ch)
  {
    NoteEffect(h.(channels := h.channels[at := h.channels[at].(pending := h.channels[at].pending + [p])]),
      Accepted(at, p), ch);
  }

  /** Taking a payload in and handing it on at once. */
  lemma NoteThrough(h: State, at: string, p: Payload, ch: string)
    ensures
      var h1 := Note(Note(h, Accepted(at, p)), Dispatched(at, p));
      && (at == ch ==> Taken(h1.log, ch) == Taken(h.log, ch) + [p] && HandedOn(h1.log, ch) == HandedOn(h.log, ch) + [p])
      && (at != ch ==> Taken(h1.log, ch) == Taken(h.log, ch) && HandedOn(h1.log, ch) == HandedOn(h.log, ch))
  {
    NoteEffect(h, Accepted(at, p), ch);
    NoteEffect(Note(h, Accepted(at, p)), Dispatched(at, p), ch);
  }

  // ---- leaving never loses a payload ----

  lemma LeaveBacklog(h: State, id: Id, at: string, ch: string)
    ensures SamePayloads(h, Leave(h, id, at), ch)
  {
  }

  lemma {:induction false} LeaveAllBacklog(h: State, id: Id, list: seq<(string, Mode)>, ch: string)
    ensures SamePayloads(h, LeaveAll(h, id, list), ch)
    decreases |list|
  {
    if list != [] {
      LeaveBacklog(h, id, list[0].0, ch);
      LeaveAllBacklog(Leave(h, id, list[0].0), id, list[1..], ch);
    }
  }

  lemma CloseBacklog(h: State, id: Id, ch: string)
    ensures SamePayloads(h, Close(h, id), ch)
  {
    if id in h.clients {
      var h1 := LeaveAll(h, id, h.clients[id].attachments);
      LeaveAllBacklog(h, id, h.clients[id].attachments, ch);
      NoteEffect(h1.(clients := h1.clients - {id}), Gone(id), ch);
    }
  }

  // ---- publishing on other names ----

  /** Another name's payloads and channel are as they were. */
  predicate Aside(h: State, h1: State, ch: string) {
    && SamePayloads(h, h1, ch) && (ch in h1.channels <==> ch in h.channels)
    && (ch in h.channels ==> h1.channels[ch] == h.channels[ch])
  }

  lemma AsideTrans(h: State, h1: State, h2: State, ch: string)
    requires Aside(h, h1, ch) && Aside(h1, h2, ch)
    ensures Aside(h, h2, ch)
  {
  }

  lemma PostAside(h: State, h1: State, id: Id, f: Frame, ch: string)
    requires Aside(h, h1, ch)
    ensures Aside(h, Post(h1, id, f), ch)
  {
    PostEffect(h1, id, f, ch);
  }

  lemma TouchAside(h: State, at: string, ch: string)
    requires at != ch
    ensures Aside(h, Touch(h, at), ch)
  {
  }

  lemma DispatchAside(h: State, at: string, p: Payload, ch: string)
    requires at in h.channels && at != ch
    ensures Aside(h, Dispatch(Note(h, Accepted(at, p)), at, p), ch)
  {
    var h1 := Note(h, Accepted(at, p));
    NoteEffect(h, Accepted(at, p), ch);
    DispatchOther(h1, at, p, ch);
    DispatchElsewhere(h1, at, p);
  }

  lemma EnqueueAside(h: State, at: string, p: Payload, ch: string)
    requires at in h.channels && at != ch
    ensures Aside(h, Enqueue(h, at, p), ch)
  {
    EnqueueOther(h, at, p, ch);
  }

  lemma DrainAside(h: State, at: string, id: Id, ch: string)
    requires at in h.channels && at != ch
    ensures Aside(h, Drain(h, at, id), ch)
  {
    DrainOther(h, at, id, ch);
    DrainKeeps(h, at, id);
  }

  lemma ForwardAside(h: State, at: string, p: Payload, others: seq<Id>, ch: string)
    requires at != ch
    ensures Aside(h, PostAll(Note(Note(h, Accepted(at, p)), Dispatched(at, p)), others, Deliver(at, ChannelPeer, p)),
      ch)
  {
    var h1 := Note(Note(h, Accepted(at, p)), Dispatched(at, p));
    NoteThrough(h, at, p, ch);
    PostAllEffect(h1, others, Deliver(at, ChannelPeer, p), ch);
    PostAllFrame(h1, others, Deliver(at, ChannelPeer, p));
  }

  /** Publishing on one name does nothing to another. */
  lemma PublishAside(h: State, id: Id, at: string, p: Payload, ch: string)
    requires at != ch
    ensures Aside(h, Publish(h, id, at, p), ch)
  {
    var h0 := Touch(h, at);
    TouchAside(h, at, ch);
    if id in h0.channels[at].peers {
      PublishPeerAside(h0, id, at, p, ch);
      AsideTrans(h, h0, PublishPeer(h0, id, at, p), ch);
    } else {
      PublishPipeAside(h0, id, at, p, ch);
      AsideTrans(h, h0, PublishPipe(h0, id, at, p), ch);
    }
  }

  lemma PublishPipeAside(h: State, id: Id, at: string, p: Payload, ch: string)
    requires at != ch && at in h.channels
    ensures Aside(h, PublishPipe(h, id, at, p), ch)
  {
    var c := h.channels[at];
    if HasReader(c) {
      DispatchAside(h, at, p, ch);
      PostAside(h, Dispatch(Note(h, Accepted(at, p)), at, p), id, Ack, ch);
    } else if |c.pending| >= MaxPending {
      PostAside(h, h, id, Refused(Full(at)), ch);
    } else {
      EnqueueAside(h, at, p, ch);
      PostAside(h, Enqueue(h, at, p), id, Ack, ch);
    }
  }

  lemma PublishPeerAside(h: State, id: Id, at: string, p: Payload, ch: string)
    requires at != ch && at in h.channels
    ensures Aside(h, PublishPeer(h, id, at, p), ch)
  {
    var c := h.channels[at];
    var others := Others(h, c.peers, id);
    if others != [] {
      ForwardAside(h, at, p, others, ch);
      PostAside(h, PostAll(Note(Note(h, Accepted(at, p)), Dispatched(at, p)), others, Deliver(at, ChannelPeer, p)), id,
        Ack, ch);
    } else if |c.pending| >= MaxPending {
      PostAside(h, h, id, Refused(Full(at)), ch);
    } else {
      var h1 := Enqueue(h, at, p);
      EnqueueAside(h, at, p, ch);
      if c.ready.Some? && c.ready.value != id && c.ready.value in h.clients {
        DrainAside(h1, at, c.ready.value, ch);
        AsideTrans(h, h1, Drain(h1, at, c.ready.value), ch);
        PostAside(h, Drain(h1, at, c.ready.value), id, Ack, ch);
      } else {
        PostAside(h, h1, id, Ack, ch);
      }
    }
  }

  // ---- the other requests on other names ----

  lemma RegisterAside(h: State, id: Id, at: string, mode: Mode, ch: string)
    requires at != ch && id in h.clients
    ensures Aside(h, Register(h, id, at, mode), ch)
  {
    hide Taken, HandedOn, Drain, Flush;
    var h0 := Touch(h, at);
    var c := h0.channels[at];
    TouchAside(h, at, ch);
    if IsReader(mode) && c.writers == [] {
      PostAside(h, h0, id, Refused(NoPublisher(at)), ch);
    } else if mode == ChannelPeer && |c.peers| >= 2 {
      PostAside(h, h0, id, Refused(TwoPeers(at)), ch);
    } else {
      var h1 := Attach(h0, id, at, mode);
      var h2 := Post(h1, id, Ack);
      PostAside(h, h1, id, Ack, ch);
      if IsReader(mode) {
        FlushOther(h2, at, ch);
        FlushState(h2, at);
        AsideTrans(h, h2, Flush(h2, at), ch);
      } else if mode == ChannelPeer {
        DrainAside(h2, at, id, ch);
        AsideTrans(h, h2, Drain(h2, at, id), ch);
      }
    }
  }

  lemma OfferAside(h: State, id: Id, at: string, ch: string)
    requires at != ch
    ensures Aside(h, Offer(h, id, at), ch)
  {
    var h0 := Note(Touch(h, at), Offered(id, at));
    var c := h0.channels[at];
    NoteEffect(Touch(h, at), Offered(id, at), ch);
    assert Aside(h, h0, ch);
    if id !in c.peers {
      PostAside(h, h0, id, Refused(NotAttached(at)), ch);
    } else if c.offer.Some? && c.offer.value != id {
      var h1 := SetSlots(h0, at, None, c.ready);
      PostAside(h, h1, id, Busy(at), ch);
      PostAside(h, Post(h1, id, Busy(at)), c.offer.value, Busy(at), ch);
    } else {
      PostAside(h, SetSlots(h0, at, None, None), id, Accept(at), ch);
    }
  }

  lemma ReadyAside(h: State, id: Id, at: string, ch: string)
    requires at != ch
    ensures Aside(h, RecvReady(h, id, at), ch)
  {
    hide Taken, HandedOn, Drain;
    var h0 := Touch(h, at);
    var c := h0.channels[at];
    TouchAside(h, at, ch);
    PostAside(h, h0, id, Refused(NotAttached(at)), ch);
    if id in c.peers {
      var h1 := GrantParked(h0, id, at);
      if c.offer.Some? {
        PostAside(h, SetSlots(h0, at, None, c.ready), c.offer.value, Accept(at), ch);
      }
      DrainAside(h1, at, id, ch);
      DrainKeeps(h1, at, id);
    }
  }

  /** The first half of `RecvReady`. */
  function GrantParked(h: State, id: Id, ch: string): (r: State)
    requires ch in h.channels
    ensures ch in r.channels && r.clients == h.clients
  {
    var c := h.channels[ch];
    if c.offer.Some? && c.offer.value != id then Post(SetSlots(h, ch, None, c.ready), c.offer.value, Accept(ch)) else h
  }

  lemma LeaveAside(h: State, id: Id, at: string, ch: string)
    requires at != ch
    ensures Aside(h, Leave(h, id, at), ch)
  {
    hide Taken, HandedOn;
  }

  // ---- names used as pipes ----

  /** On a pipe every payload is accounted for, a backlog exists only while nobody reads,
      and it stays within its limit. */
  ghost predicate PipeInv(h: State, ch: string) {
    Conserved(h, ch) && (ch in h.channels ==> PipeOk(h.channels[ch]))
  }

  predicate PipeOk(c: Channel) {
    c.peers == [] && (HasReader(c) ==> c.pending == []) && |c.pending| <= MaxPending
  }

  /** A step that does not use `ch` as a channel. */
  predicate PipeStep(s: Step, ch: string) {
    !(s.From? && s.message == AttachMsg(ch, ChannelPeer))
  }

  lemma AsideKeepsPipe(h: State, h1: State, ch: string)
    requires PipeInv(h, ch) && Aside(h, h1, ch)
    ensures PipeInv(h1, ch)
  {
  }

  /** Clients leaving a pipe. */
  lemma DepartureKeepsPipe(h: State, h1: State, id: Id, ch: string)
    requires PipeInv(h, ch) && SamePayloads(h, h1, ch)
    requires ch in h1.channels ==>
      ch in h.channels && (h1.channels[ch] == h.channels[ch] || h1.channels[ch] == WithoutClient(h.channels[ch], id))
    ensures PipeInv(h1, ch)
  {
  }

  lemma CloseKeepsPipe(h: State, id: Id, ch: string)
    requires PipeInv(h, ch)
    ensures PipeInv(Close(h, id), ch)
  {
    if id in h.clients {
      CloseBacklog(h, id, ch);
      LeaveAllEffect(h, id, h.clients[id].attachments);
      DepartureKeepsPipe(h, Close(h, id), id, ch);
    }
  }

  lemma DetachKeepsPipe(h: State, id: Id, at: string, mode: Mode, ch: string)
    requires PipeInv(h, ch) && id in h.clients
    ensures PipeInv(Unregister(h, id, at, mode), ch)
  {
    var h0 := h.(clients := h.clients[id := Client(Unlisted(h.clients[id].attachments, at, mode))]);
    if at == ch {
      LeaveBacklog(h0, id, ch, ch);
      LeaveEffect(h0, id, ch);
      DepartureKeepsPipe(h0, Leave(h0, id, ch), id, ch);
    } else {
      LeaveAside(h0, id, at, ch);
      AsideKeepsPipe(h0, Leave(h0, id, at), ch);
    }
  }

  lemma TouchKeepsPipe(h: State, ch: string)
    requires PipeInv(h, ch)
    ensures PipeInv(Touch(h, ch), ch)
  {
  }

  lemma PostKeepsPipe(h: State, id: Id, f: Frame, ch: string)
    requires PipeInv(h, ch)
    ensures PipeInv(Post(h, id, f), ch)
  {
    PostEffect(h, id, f, ch);
  }

  lemma EraseKeepsPipe(h: State, ch: string)
    requires PipeInv(h, ch)
    ensures PipeInv(MaybeErase(h, ch), ch)
  {
  }

  lemma AttachKeepsPipe(h: State, id: Id, ch: string, mode: Mode)
    requires PipeInv(h, ch) && id in h.clients && mode != ChannelPeer
    ensures PipeInv(Register(h, id, ch, mode), ch)
  {
    var h0 := Touch(h, ch);
    var c := h0.channels[ch];
    TouchKeepsPipe(h, ch);
    if IsReader(mode) && c.writers == [] {
      PostKeepsPipe(h0, id, Refused(NoPublisher(ch)), ch);
      EraseKeepsPipe(Post(h0, id, Refused(NoPublisher(ch))), ch);
    } else {
      var h1 := Attach(h0, id, ch, mode);
      var h2 := Post(h1, id, Ack);
      PostEffect(h1, id, Ack, ch);
      if IsReader(mode) {
        FlushOwn(h2, ch);
        FlushState(h2, ch);
      }
    }
  }

  lemma PublishKeepsPipe(h: State, id: Id, ch: string, p: Payload)
    requires PipeInv(h, ch)
    ensures PipeInv(Publish(h, id, ch, p), ch)
  {
    var h0 := Touch(h, ch);
    var c := h0.channels[ch];
    TouchKeepsPipe(h, ch);
    if HasReader(c) {
      var h1 := Note(h0, Accepted(ch, p));
      NoteEffect(h0, Accepted(ch, p), ch);
      DispatchOwn(h1, ch, p);
      DispatchKeeps(h1, ch, p);
      AddNone(HandedOn(h0.log, ch));
      AddNone(HandedOn(h0.log, ch) + [p]);
      PostKeepsPipe(Dispatch(h1, ch, p), id, Ack, ch);
    } else if |c.pending| >= MaxPending {
      PostKeepsPipe(h0, id, Refused(Full(ch)), ch);
    } else {
      EnqueueKeeps(h0, ch, p);
      PostKeepsPipe(Enqueue(h0, ch, p), id, Ack, ch);
    }
  }

  lemma EnqueueKeeps(h: State, ch: string, p: Payload)
    requires ch in h.channels && Conserved(h, ch)
    ensures Conserved(Enqueue(h, ch, p), ch)
  {
    EnqueueOwn(h, ch, p);
    assert HandedOn(h.log, ch) + (Backlog(h, ch) + [p]) == (HandedOn(h.log, ch) + Backlog(h, ch)) + [p];
  }

  lemma HandshakeKeepsPipe(h: State, id: Id, ch: string)
    requires PipeInv(h, ch)
    ensures PipeInv(Offer(h, id, ch), ch) && PipeInv(RecvReady(h, id, ch), ch)
  {
    var h0 := Touch(h, ch);
    var h1 := Note(h0, Offered(id, ch));
    TouchKeepsPipe(h, ch);
    NoteEffect(h0, Offered(id, ch), ch);
    PostKeepsPipe(h0, id, Refused(NotAttached(ch)), ch);
    PostKeepsPipe(h1, id, Refused(NotAttached(ch)), ch);
  }

  lemma ConnectKeepsPipe(h: State, h1: State, ch: string)
    requires PipeInv(h, ch) && h1.channels == h.channels && h1.log == h.log
    ensures PipeInv(h1, ch)
  {
  }

  lemma PipeNext(h: State, s: Step, ch: string)
    requires PipeInv(h, ch) && Possible(h, s) && PipeStep(s, ch)
    ensures PipeInv(Next(h, s), ch)
  {
    hide PipeInv, Register, Publish, Offer, RecvReady, Close, Unregister, Touch, Aside;
    match s
    case Connect(_) => ConnectKeepsPipe(h, Next(h, s), ch);
    case Lost(id) => CloseKeepsPipe(h, id, ch);
    case From(id, r) =>
      match r
      case ByeMsg => CloseKeepsPipe(h, id, ch);
      case DetachMsg(at, mode) => DetachKeepsPipe(h, id, at, mode, ch);
      case AttachMsg(at, mode) =>
        if at == ch {
          AttachKeepsPipe(h, id, ch, mode);
        } else {
          RegisterAside(h, id, at, mode, ch);
          AsideKeepsPipe(h, Register(h, id, at, mode), ch);
        }
      case PublishMsg(at, p) =>
        if at == ch {
          PublishKeepsPipe(h, id, ch, p);
        } else {
          PublishAside(h, id, at, p, ch);
          AsideKeepsPipe(h, Publish(h, id, at, p), ch);
        }
      case OfferMsg(at) =>
        if at == ch {
          HandshakeKeepsPipe(h, id, ch);
        } else {
          OfferAside(h, id, at, ch);
          AsideKeepsPipe(h, Offer(h, id, at), ch);
        }
      case ReadyMsg(at) =>
        if at == ch {
          HandshakeKeepsPipe(h, id, ch);
        } else {
          ReadyAside(h, id, at, ch);
          AsideKeepsPipe(h, RecvReady(h, id, at), ch);
        }
      case DataAckMsg(at) =>
        if at == ch {
          TouchKeepsPipe(h, ch);
        } else {
          TouchAside(h, at, ch);
          AsideKeepsPipe(h, Touch(h, at), ch);
        }
      case _ =>
  }

  /** Pipe delivery, over every run: what was taken in is what was handed on, in order,
      followed by the backlog; there is no backlog while a reader is attached. */
  lemma {:induction false} PipeDelivery(steps: seq<Step>, ch: string)
    requires Run(steps) && forall s | s in steps :: PipeStep(s, ch)
    ensures PipeInv(After(steps), ch)
    decreases |steps|
  {
    if steps != [] {
      PipeDelivery(steps[..|steps| - 1], ch);
      PipeNext(After(steps[..|steps| - 1]), steps[|steps| - 1], ch);
    }
  }

  // ---- names used as channels ----

  /** On a channel every payload is accounted for, and a backlog exists only while no two
      different peers are attached. */
  ghost predicate ChannelInv(h: State, ch: string) {
    Conserved(h, ch) && (ch in h.channels ==> ChannelOk(h.channels[ch]))
  }

  predicate ChannelOk(c: Channel) {
    && !HasReader(c) && c.writers == [] && |c.pending| <= MaxPending
    && (Paired(c) ==> c.pending == [])
  }

  /** Both slots are taken, by different clients. */
  predicate Paired(c: Channel) {
    |c.peers| == 2 && c.peers[0] != c.peers[1]
  }

  /** A step that leaves `ch` a channel in order: nobody attaches as a writer, and while two
      different peers are attached nobody else publishes to it. */
  predicate ChannelStep(h: State, s: Step, ch: string) {
    match s
    case From(_, AttachMsg(at, mode)) => at == ch ==> mode != Writer
    case From(id, PublishMsg(at, _)) =>
      at == ch && ch in h.channels && Paired(h.channels[ch]) ==> id in h.channels[ch].peers
    case _ => true
  }

  lemma AsideKeepsChannel(h: State, h1: State, ch: string)
    requires ChannelInv(h, ch) && Aside(h, h1, ch)
    ensures ChannelInv(h1, ch)
  {
  }

  lemma {:induction false} ErasePair(list: seq<Id>, id: Id)
    requires |list| <= 2
    ensures
      var r := Erase(list, id);
      |r| == 2 && r[0] != r[1] ==> |list| == 2 && list[0] != list[1]
  {
    if |list| == 2 {
      assert list[1..] == [list[1]] && list[1..][1..] == [];
      assert Erase(list[1..][1..], id) == [];
    } else if |list| == 1 {
      assert list[1..] == [];
    }
  }

  lemma DepartureKeepsChannel(h: State, h1: State, id: Id, ch: string)
    requires ChannelInv(h, ch) && SamePayloads(h, h1, ch) && (ch in h.channels ==> |h.channels[ch].peers| <= 2)
    requires ch in h1.channels ==>
      ch in h.channels && (h1.channels[ch] == h.channels[ch] || h1.channels[ch] == WithoutClient(h.channels[ch], id))
    ensures ChannelInv(h1, ch)
  {
    if ch in h1.channels {
      ErasePair(h.channels[ch].peers, id);
    }
  }

  lemma CloseKeepsChannel(h: State, id: Id, ch: string)
    requires ChannelInv(h, ch) && Members(h)
    ensures ChannelInv(Close(h, id), ch)
  {
    if id in h.clients {
      assert ch in h.channels ==> MemberOk(h, ch);
      CloseBacklog(h, id, ch);
      LeaveAllEffect(h, id, h.clients[id].attachments);
      DepartureKeepsChannel(h, Close(h, id), id, ch);
    }
  }

  lemma DetachKeepsChannel(h: State, id: Id, at: string, mode: Mode, ch: string)
    requires ChannelInv(h, ch) && Members(h) && id in h.clients
    ensures ChannelInv(Unregister(h, id, at, mode), ch)
  {
    var h0 := h.(clients := h.clients[id := Client(Unlisted(h.clients[id].attachments, at, mode))]);
    assert ch in h.channels ==> MemberOk(h, ch);
    if at == ch {
      LeaveBacklog(h0, id, ch, ch);
      LeaveEffect(h0, id, ch);
      DepartureKeepsChannel(h0, Leave(h0, id, ch), id, ch);
    } else {
      LeaveAside(h0, id, at, ch);
      AsideKeepsChannel(h0, Leave(h0, id, at), ch);
    }
  }

  lemma PostKeepsChannel(h: State, id: Id, f: Frame, ch: string)
    requires ChannelInv(h, ch)
    ensures ChannelInv(Post(h, id, f), ch)
  {
    PostEffect(h, id, f, ch);
  }

  lemma DrainKeepsChannel(h: State, ch: string, id: Id)
    requires ch in h.channels && Conserved(h, ch) && ChannelOk(h.channels[ch].(pending := []))
    ensures ChannelInv(Drain(h, ch, id), ch)
  {
    DrainOwn(h, ch, id);
    DrainKeeps(h, ch, id);
    AddNone(HandedOn(h.log, ch) + Backlog(h, ch));
  }

  lemma AttachKeepsChannel(h: State, id: Id, ch: string, mode: Mode)
    requires ChannelInv(h, ch) && id in h.clients && mode != Writer
    ensures ChannelInv(Register(h, id, ch, mode), ch)
  {
    var h0 := Touch(h, ch);
    if IsReader(mode) {
      PostKeepsChannel(h0, id, Refused(NoPublisher(ch)), ch);
      EraseKeepsChannel(Post(h0, id, Refused(NoPublisher(ch))), ch);
    } else if mode == ChannelPeer && |h0.channels[ch].peers| >= 2 {
      PostKeepsChannel(h0, id, Refused(TwoPeers(ch)), ch);
    } else {
      var h1 := Post(Attach(h0, id, ch, mode), id, Ack);
      JoinKeeps(h0, id, ch, mode);
      if mode == ChannelPeer {
        DrainKeepsChannel(h1, ch, id);
        assert Register(h, id, ch, ChannelPeer) == Drain(h1, ch, id);
      }
    }
  }

  lemma EraseKeepsChannel(h: State, ch: string)
    requires ChannelInv(h, ch)
    ensures ChannelInv(MaybeErase(h, ch), ch)
  {
  }

  lemma JoinKeeps(h: State, id: Id, ch: string, mode: Mode)
    requires ChannelInv(h, ch) && id in h.clients && ch in h.channels && (mode == ChannelPeer || mode.OtherMode?)
    ensures
      var h1 := Post(Attach(h, id, ch, mode), id, Ack);
      && ch in h1.channels && Conserved(h1, ch) && ChannelOk(h1.channels[ch].(pending := []))
      && (mode.OtherMode? ==> ChannelInv(h1, ch))
  {
    PostEffect(Attach(h, id, ch, mode), id, Ack, ch);
  }

  /** With nobody else in the channel, every slot is the publisher's own. */
  lemma NoOthers(h: State, peers: seq<Id>, id: Id)
    requires Others(h, peers, id) == [] && forall x | x in peers :: x in h.clients
    ensures forall x | x in peers :: x == id
  {
  }

  function Forwarded(h: State, ch: string, p: Payload, others: seq<Id>): State {
    PostAll(Note(Note(h, Accepted(ch, p)), Dispatched(ch, p)), others, Deliver(ch, ChannelPeer, p))
  }

  lemma ForwardKeepsChannel(h: State, ch: string, p: Payload, others: seq<Id>)
    requires ch in h.channels && ChannelInv(h, ch) && h.channels[ch].pending == []
    ensures ChannelInv(Forwarded(h, ch, p, others), ch)
  {
    var h1 := Note(Note(h, Accepted(ch, p)), Dispatched(ch, p));
    NoteThrough(h, ch, p, ch);
    PostAllEffect(h1, others, Deliver(ch, ChannelPeer, p), ch);
    PostAllFrame(h1, others, Deliver(ch, ChannelPeer, p));
    AddNone(HandedOn(h.log, ch));
    AddNone(HandedOn(h.log, ch) + [p]);
  }

  lemma PublishKeepsChannel(h: State, id: Id, ch: string, p: Payload)
    requires ChannelInv(h, ch) && Members(h) && ch in h.channels && id in h.channels[ch].peers
    ensures ChannelInv(Publish(h, id, ch, p), ch)
  {
    var c, r := h.channels[ch], Publish(h, id, ch, p);
    var others := Others(h, c.peers, id);
    assert MemberOk(h, ch) && Touch(h, ch) == h;
    if others != [] {
      assert others[0] in others && others[0] in c.peers && others[0] != id;
      assert Paired(c);
      ForwardKeepsChannel(h, ch, p, others);
      var h1 := Forwarded(h, ch, p, others);
      assert r == Post(h1, id, Ack);
      PostKeepsChannel(h1, id, Ack, ch);
    } else if |c.pending| >= MaxPending {
      assert r == Post(h, id, Refused(Full(ch)));
      PostKeepsChannel(h, id, Refused(Full(ch)), ch);
    } else {
      NoOthers(h, c.peers, id);
      AloneKeepsChannel(h, id, ch, p);
      var h1 := Enqueue(h, ch, p);
      assert r == Post(h1, id, Ack);
      PostKeepsChannel(h1, id, Ack, ch);
    }
  }

  /** A client that is no peer publishes as to a pipe. */
  lemma StrangerKeepsChannel(h: State, id: Id, ch: string, p: Payload)
    requires ChannelInv(h, ch) && (ch in h.channels ==> id !in h.channels[ch].peers && !Paired(h.channels[ch]))
    ensures ChannelInv(Publish(h, id, ch, p), ch)
  {
    var h0 := Touch(h, ch);
    if |h0.channels[ch].pending| >= MaxPending {
      PostKeepsChannel(h0, id, Refused(Full(ch)), ch);
    } else {
      EnqueueKeeps(h0, ch, p);
      PostKeepsChannel(Enqueue(h0, ch, p), id, Ack, ch);
    }
  }

  lemma AloneKeepsChannel(h: State, id: Id, ch: string, p: Payload)
    requires ch in h.channels && ChannelInv(h, ch) && |h.channels[ch].pending| < MaxPending
    requires forall x | x in h.channels[ch].peers :: x == id
    ensures ChannelInv(Enqueue(h, ch, p), ch)
  {
    var peers := h.channels[ch].peers;
    EnqueueKeeps(h, ch, p);
    if |peers| == 2 {
      assert peers[0] in peers && peers[1] in peers;
    }
  }

  lemma OfferKeepsChannel(h: State, id: Id, ch: string)
    requires ChannelInv(h, ch)
    ensures ChannelInv(Offer(h, id, ch), ch)
  {
    var h0 := Note(Touch(h, ch), Offered(id, ch));
    var c := h0.channels[ch];
    NoteEffect(Touch(h, ch), Offered(id, ch), ch);
    if id !in c.peers {
      PostKeepsChannel(h0, id, Refused(NotAttached(ch)), ch);
    } else if c.offer.Some? && c.offer.value != id {
      var h1 := SetSlots(h0, ch, None, c.ready);
      PostKeepsChannel(h1, id, Busy(ch), ch);
      PostKeepsChannel(Post(h1, id, Busy(ch)), c.offer.value, Busy(ch), ch);
    } else {
      PostKeepsChannel(SetSlots(h0, ch, None, None), id, Accept(ch), ch);
    }
  }

  lemma ReadyKeepsChannel(h: State, id: Id, ch: string)
    requires ChannelInv(h, ch)
    ensures ChannelInv(RecvReady(h, id, ch), ch)
  {
    var h0 := Touch(h, ch);
    var c := h0.channels[ch];
    if id !in c.peers {
      PostKeepsChannel(h0, id, Refused(NotAttached(ch)), ch);
    } else {
      var h1 := GrantParked(h0, id, ch);
      GrantKeepsChannel(h0, id, ch);
      DrainKeeps(h1, ch, id);
      DrainKeepsChannel(h1, ch, id);
      var h2 := if id in h1.clients then Drain(h1, ch, id) else h1;
      assert RecvReady(h, id, ch) == SetSlots(h2, ch, h2.channels[ch].offer, Some(id));
      SlotsKeepChannel(h2, ch, h2.channels[ch].offer, Some(id));
    }
  }

  lemma SlotsKeepChannel(h: State, ch: string, offer: Option<Id>, ready: Option<Id>)
    requires ch in h.channels && ChannelInv(h, ch)
    ensures ChannelInv(SetSlots(h, ch, offer, ready), ch)
  {
  }

  lemma GrantKeepsChannel(h: State, id: Id, ch: string)
    requires ch in h.channels && ChannelInv(h, ch)
    ensures ChannelInv(GrantParked(h, id, ch), ch)
  {
    var c := h.channels[ch];
    if c.offer.Some? {
      SlotsKeepChannel(h, ch, None, c.ready);
      PostKeepsChannel(SetSlots(h, ch, None, c.ready), c.offer.value, Accept(ch), ch);
    }
  }

  lemma SameKeepsChannel(h: State, h1: State, ch: string)
    requires ChannelInv(h, ch) && h1.channels == h.channels && h1.log == h.log
    ensures ChannelInv(h1, ch)
  {
  }

  lemma TouchKeepsChannel(h: State, ch: string)
    requires ChannelInv(h, ch)
    ensures ChannelInv(Touch(h, ch), ch)
  {
  }

  lemma ChannelNext(h: State, s: Step, ch: string)
    requires ChannelInv(h, ch) && Members(h) && Possible(h, s) && ChannelStep(h, s, ch)
    ensures ChannelInv(Next(h, s), ch)
  {
    hide ChannelInv, Register, Publish, Offer, RecvReady, Close, Unregister, Touch, Aside;
    match s
    case Connect(_) => SameKeepsChannel(h, Next(h, s), ch);
    case Lost(id) => CloseKeepsChannel(h, id, ch);
    case From(id, r) =>
      match r
      case ByeMsg => CloseKeepsChannel(h, id, ch);
      case DetachMsg(at, mode) => DetachKeepsChannel(h, id, at, mode, ch);
      case AttachMsg(at, mode) =>
        if at == ch {
          AttachKeepsChannel(h, id, ch, mode);
        } else {
          RegisterAside(h, id, at, mode, ch);
          AsideKeepsChannel(h, Register(h, id, at, mode), ch);
        }
      case PublishMsg(at, p) =>
        if at == ch {
          if ch in h.channels && id in h.channels[ch].peers {
            PublishKeepsChannel(h, id, ch, p);
          } else {
            StrangerKeepsChannel(h, id, ch, p);
          }
        } else {
          PublishAside(h, id, at, p, ch);
          AsideKeepsChannel(h, Publish(h, id, at, p), ch);
        }
      case OfferMsg(at) =>
        if at == ch {
          OfferKeepsChannel(h, id, ch);
        } else {
          OfferAside(h, id, at, ch);
          AsideKeepsChannel(h, Offer(h, id, at), ch);
        }
      case ReadyMsg(at) =>
        if at == ch {
          ReadyKeepsChannel(h, id, ch);
        } else {
          ReadyAside(h, id, at, ch);
          AsideKeepsChannel(h, RecvReady(h, id, at), ch);
        }
      case DataAckMsg(at) =>
        if at == ch {
          TouchKeepsChannel(h, ch);
        } else {
          TouchAside(h, at, ch);
          AsideKeepsChannel(h, Touch(h, at), ch);
        }
      case _ =>
  }

  /** A writer on a name used as a channel. */
  lemma WriterBreaksChannel(h: State, id: Id, ch: string)
    requires ChannelInv(h, ch) && id in h.clients
    ensures !ChannelInv(Register(h, id, ch, Writer), ch)
  {
    var r := Register(h, id, ch, Writer);
    assert r.channels[ch].writers == Touch(h, ch).channels[ch].writers + [id];
  }

  /** A client that is not attached publishes to a pair: the payload waits in the backlog
      although both peers are there. */
  lemma StrangerParksPayload(h: State, id: Id, ch: string, p: Payload)
    requires ch in h.channels && ChannelOk(h.channels[ch]) && Paired(h.channels[ch]) && id !in h.channels[ch].peers
    ensures Backlog(Publish(h, id, ch, p), ch) == [p] && Paired(Publish(h, id, ch, p).channels[ch])
    ensures !ChannelInv(Publish(h, id, ch, p), ch)
  {
  }

  /** A step keeps the channel in order exactly if it is a `ChannelStep`. */
  lemma ChannelExactly(h: State, s: Step, ch: string)
    requires ChannelInv(h, ch) && Members(h) && Possible(h, s)
    ensures ChannelInv(Next(h, s), ch) <==> ChannelStep(h, s, ch)
  {
    if ChannelStep(h, s, ch) {
      ChannelNext(h, s, ch);
    } else {
      match s.message
      case AttachMsg(_, _) => WriterBreaksChannel(h, s.id, ch);
      case PublishMsg(_, p) => StrangerParksPayload(h, s.id, ch, p);
    }
  }

  /** Every step of the run uses `ch` only as a channel. */
  ghost predicate ChannelRun(steps: seq<Step>, ch: string)
    requires Run(steps)
    decreases |steps|
  {
    steps == [] ||
    (ChannelRun(steps[..|steps| - 1], ch) && ChannelStep(After(steps[..|steps| - 1]), steps[|steps| - 1], ch))
  }

  /** Channel delivery, over every run. */
  lemma {:induction false} ChannelDelivery(steps: seq<Step>, ch: string)
    requires Run(steps) && ChannelRun(steps, ch)
    ensures ChannelInv(After(steps), ch)
    decreases |steps|
  {
    if steps != [] {
      MembersAlways(steps[..|steps| - 1]);
      ChannelDelivery(steps[..|steps| - 1], ch);
      ChannelNext(After(steps[..|steps| - 1]), steps[|steps| - 1], ch);
    }
  }

  /** A payload published to a pair goes to exactly the other peer, once. */
  lemma PairDelivery(h: State, id: Id, ch: string, p: Payload)
    requires Members(h) && ch in h.channels && id in h.channels[ch].peers && Paired(h.channels[ch])
    ensures
      var c := h.channels[ch];
      var other := if c.peers[0] == id then c.peers[1] else c.peers[0];
      Publish(h, id, ch, p) == Note(Note(Note(Note(h, Accepted(ch, p)), Dispatched(ch, p)),
                                         Sent(other, Deliver(ch, ChannelPeer, p))), Sent(id, Ack))
  {
    var c := h.channels[ch];
    var other := if c.peers[0] == id then c.peers[1] else c.peers[0];
    assert MemberOk(h, ch) && other in c.peers && id in h.clients && other in h.clients;
    assert c.peers == [c.peers[0], c.peers[1]] && c.peers[1..] == [c.peers[1]] && c.peers[1..][1..] == [];
    assert Others(h, c.peers[1..][1..], id) == [];
    assert Others(h, c.peers, id) == [other];
    var h1 := Note(Note(h, Accepted(ch, p)), Dispatched(ch, p));
    assert PostAll(h1, [other], Deliver(ch, ChannelPeer, p)) == Post(h1, other, Deliver(ch, ChannelPeer, p));
  }

  ghost predicate ChannelAlways(steps: seq<Step>, ch: string)
    requires Run(steps)
    decreases |steps|
  {
    ChannelInv(After(steps), ch) && (steps == [] || ChannelAlways(steps[..|steps| - 1], ch))
  }

  /** Over every run, exactly: the channel was in order all along if and only if every step
      was a `ChannelStep`. */
  lemma {:induction false} ChannelRunExactly(steps: seq<Step>, ch: string)
    requires Run(steps)
    ensures ChannelAlways(steps, ch) <==> ChannelRun(steps, ch)
    decreases |steps|
  {
    if steps != [] {
      var before, s := steps[..|steps| - 1], steps[|steps| - 1];
      ChannelRunExactly(before, ch);
      if ChannelAlways(before, ch) {
        MembersAlways(before);
        ChannelExactly(After(before), s, ch);
      }
    }
  }

  // ---- a run with a stranger ----

  /** Three clients of which two become the peers of a channel. */
  function PairOf(a: Id, b: Id, c: Id, ch: string): seq<Step> {
    [Connect(a), Connect(b), Connect(c)] + [From(a, AttachMsg(ch, ChannelPeer))] + [From(b, AttachMsg(ch, ChannelPeer))]
  }

  lemma ThreeConnect(a: Id, b: Id, c: Id)
    requires a != b && a != c && b != c
    ensures
      var run := [Connect(a), Connect(b), Connect(c)];
      Run(run) && After(run) == State(map[a := Client([]), b := Client([]), c := Client([])], map[], [])
  {
    RunMore([], Connect(a));
    RunMore([] + [Connect(a)], Connect(b));
    RunMore([] + [Connect(a)] + [Connect(b)], Connect(c));
    assert [] + [Connect(a)] + [Connect(b)] + [Connect(c)] == [Connect(a), Connect(b), Connect(c)];
    assert Empty.clients[a := Client([])][b := Client([])][c := Client([])]
        == map[a := Client([]), b := Client([]), c := Client([])];
  }

  /** A peer joins a channel that has room and no backlog. */
  lemma PeerJoins(h: State, id: Id, ch: string, peers: seq<Id>)
    requires id in h.clients && Touch(h, ch).channels[ch].peers == peers && |peers| < 2
    requires Touch(h, ch).channels[ch].pending == []
    ensures
      var r := Register(h, id, ch, ChannelPeer);
      ch in r.channels && r.channels[ch] == Touch(h, ch).channels[ch].(peers := peers + [id])
        && r.clients.Keys == h.clients.Keys
  {
  }

  /** The run: two peers attach, a third client publishes, and its payload stays behind. */
  lemma StrangerRun(a: Id, b: Id, c: Id, ch: string, p: Payload)
    requires a != b && a != c && b != c
    ensures
      var run := PairOf(a, b, c, ch) + [From(c, PublishMsg(ch, p))];
      && Run(run) && ch in After(run).channels
      && Paired(After(run).channels[ch]) && Backlog(After(run), ch) == [p]
  {
    hide Register, Publish, Touch;
    var r0, sa, sb := [Connect(a), Connect(b), Connect(c)], From(a, AttachMsg(ch, ChannelPeer)),
      From(b, AttachMsg(ch, ChannelPeer));
    ThreeConnect(a, b, c);
    PairForms(After(r0), a, b, c, ch);
    RunMore(r0, sa);
    RunMore(r0 + [sa], sb);
    RunMore(PairOf(a, b, c, ch), From(c, PublishMsg(ch, p)));
    StrangerParksPayload(After(PairOf(a, b, c, ch)), c, ch, p);
  }

  lemma PairForms(h: State, a: Id, b: Id, c: Id, ch: string)
    requires h.channels == map[] && a in h.clients && b in h.clients && c in h.clients && a != b
    ensures
      var h1 := Register(h, a, ch, ChannelPeer);
      && b in h1.clients
      && var h2 := Register(h1, b, ch, ChannelPeer);
         c in h2.clients && ch in h2.channels && h2.channels[ch] == NoChannel.(peers := [a, b])
  {
    PeerJoins(h, a, ch, []);
    var h1 := Register(h, a, ch, ChannelPeer);
    assert [] + [a] == [a] && [a] + [b] == [a, b];
    PeerJoins(h1, b, ch, [a]);
  }

  // ---- whose payload it is ----

  /** A lone peer's payload waits, and goes to whoever is ready for it first: to the other
      peer if one joins, and back to its own publisher if that is who asks. */
  lemma BacklogToFirstReady(h: State, id: Id, who: Id, ch: string, p: Payload)
    requires ch in h.channels && h.channels[ch].peers == [id] && h.channels[ch].pending == []
    requires h.channels[ch].ready == None && h.channels[ch].offer == None && id in h.clients && who in h.clients
    ensures
      var h1 := Publish(h, id, ch, p);
      && h1.log == h.log + [Accepted(ch, p), Sent(id, Ack)]
      && Register(h1, who, ch, ChannelPeer).log
         == h1.log + [Sent(who, Ack), Dispatched(ch, p), Sent(who, Deliver(ch, ChannelPeer, p))]
      && (who == id ==>
        RecvReady(h1, who, ch).log == h1.log + [Dispatched(ch, p), Sent(who, Deliver(ch, ChannelPeer, p))])
  {
    var h0, h1 := Enqueue(h, ch, p), Publish(h, id, ch, p);
    assert [id][1..] == [] && Others(h, [id], id) == [];
    assert h1 == Post(h0, id, Ack);
    assert h1.log == h.log + [Accepted(ch, p), Sent(id, Ack)];
    assert h1.channels[ch].pending == [p];
    DrainOne(Post(Attach(h1, who, ch, ChannelPeer), who, Ack), ch, who, p);
    DrainOne(h1, ch, who, p);
  }

  lemma DrainOne(h: State, ch: string, id: Id, p: Payload)
    requires ch in h.channels && h.channels[ch].pending == [p] && id in h.clients
    ensures Drain(h, ch, id).log == h.log + [Dispatched(ch, p), Sent(id, Deliver(ch, ChannelPeer, p))]
  {
    assert [p][1..] == [];
    var h1 := Post(Note(Pop(h, ch), Dispatched(ch, p)), id, Deliver(ch, ChannelPeer, p));
    assert h1.channels[ch].pending == [];
    assert Drain(h1, ch, id) == h1;
  }
}
