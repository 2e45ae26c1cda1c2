/** The channel handshake. A client that offers to send waits for an answer; the hub keeps
    at most one offer parked per channel. On every run in which a waiting client neither
    offers again on that channel nor detaches from it, the clients that wait are exactly
    the parked offer, and every other offer got exactly one answer. */
module Handshake {
  import opened Bytes
  import opened Syntax
  import opened Hub
  import opened Membership
  import opened Delivery

  /** One client's dealings with one channel, as the log shows them: whether it waits, how
      many offers it made, how many were answered, how many went down with the client, and
      grants nobody asked for. */
  datatype Standing = Standing(waiting: bool, offers: nat, answers: nat, lost: nat, stray: nat)

  function Track(log: seq<Event>, id: Id, ch: string): Standing {
    if log == [] then Standing(false, 0, 0, 0, 0)
    else Move(Track(log[..|log| - 1], id, ch), log[|log| - 1], id, ch)
  }

  function Move(t: Standing, e: Event, id: Id, ch: string): Standing {
    match e
    case Offered(from, at) => if from == id && at == ch then t.(waiting := true, offers := t.offers + 1) else t
    case Gone(who) => if who == id && t.waiting then t.(waiting := false, lost := t.lost + 1) else t
    case Sent(to, f) =>
      if to != id || !Answers(f, ch) then t
      else if t.waiting then t.(waiting := false, answers := t.answers + 1)
      else if f.Refused? then t
      else t.(stray := t.stray + 1)
    case _ => t
  }

  /** Frames that end a wait on `ch`. A refusal also answers a `RecvReady`. */
  predicate Answers(f: Frame, ch: string) {
    f == Accept(ch) || f == Busy(ch) || f == Refused(NotAttached(ch))
  }

  /** Events that concern nobody's offers on `ch`. */
  predicate Neutral(e: Event, ch: string) {
    !e.Gone? && (e.Offered? ==> e.channel != ch) && (e.Sent? ==> !Answers(e.frame, ch))
  }

  function Parked(h: State, ch: string): Option<Id> {
    if ch in h.channels then h.channels[ch].offer else None
  }

  predicate SameStanding(h: State, h1: State, ch: string, id: Id) {
    Track(h1.log, id, ch) == Track(h.log, id, ch)
  }

  /** A step that concerns nobody's offers on `ch`. */
  ghost predicate Still(h: State, h1: State, ch: string) {
    && Parked(h1, ch) == Parked(h, ch)
    && forall id {:trigger SameStanding(h, h1, ch, id)} :: SameStanding(h, h1, ch, id)
  }

  lemma StillTrans(h: State, h1: State, h2: State, ch: string)
    requires Still(h, h1, ch) && Still(h1, h2, ch)
    ensures Still(h, h2, ch)
  {
    forall id
      ensures SameStanding(h, h2, ch, id)
    {
      assert SameStanding(h, h1, ch, id) && SameStanding(h1, h2, ch, id);
    }
  }

  lemma NoteMoves(h: State, e: Event, id: Id, ch: string)
    ensures Track(Note(h, e).log, id, ch) == Move(Track(h.log, id, ch), e, id, ch)
  {
    assert (h.log + [e])[..|h.log|] == h.log;
  }

  lemma NoteStill(h: State, e: Event, ch: string)
    requires Neutral(e, ch)
    ensures Still(h, Note(h, e), ch)
  {
    forall id
      ensures SameStanding(h, Note(h, e), ch, id)
    {
      NoteMoves(h, e, id, ch);
    }
  }

  /** Anything that leaves the log and the parked offer alone. */
  lemma LogStill(h: State, h1: State, ch: string)
    requires h1.log == h.log && Parked(h1, ch) == Parked(h, ch)
    ensures Still(h, h1, ch)
  {
    forall id
      ensures SameStanding(h, h1, ch, id)
    {
    }
  }

  lemma PostStill(h: State, h1: State, id: Id, f: Frame, ch: string)
    requires Still(h, h1, ch) && !Answers(f, ch)
    ensures Still(h, Post(h1, id, f), ch)
  {
    NoteStill(h1, Sent(id, f), ch);
    if id in h1.clients {
      StillTrans(h, h1, Post(h1, id, f), ch);
    }
  }

  lemma {:induction false} PostAllStill(h: State, h1: State, ids: seq<Id>, f: Frame, ch: string)
    requires Still(h, h1, ch) && !Answers(f, ch)
    ensures Still(h, PostAll(h1, ids, f), ch)
    decreases |ids|
  {
    if ids != [] {
      PostStill(h, h1, ids[0], f, ch);
      PostAllStill(h, Post(h1, ids[0], f), ids[1..], f, ch);
    }
  }

  // ---- payloads do not touch offers ----

  lemma DispatchStill(h: State, at: string, p: Payload, ch: string)
    requires at in h.channels
    ensures Still(h, Dispatch(h, at, p), ch)
  {
    var c, h0, f := h.channels[at], Note(h, Dispatched(at, p)), Deliver(at, BroadcastIn, p);
    var h1 := PostAll(h0, c.broadcastReaders, f);
    NoteStill(h, Dispatched(at, p), ch);
    PostAllStill(h, h0, c.broadcastReaders, f, ch);
    PostAllFrame(h0, c.broadcastReaders, f);
    if c.queueReaders != [] {
      var h2 := h1.(channels := h1.channels[at := c.(cursor := (c.cursor + 1) % U64)]);
      LogStill(h1, h2, ch);
      StillTrans(h, h1, h2, ch);
      PostStill(h, h2, c.queueReaders[c.cursor % |c.queueReaders|], Deliver(at, QueueIn, p), ch);
    }
  }

  lemma {:induction false} FlushStill(h: State, at: string, ch: string)
    requires at in h.channels
    ensures Still(h, Flush(h, at), ch)
    decreases |h.channels[at].pending|
  {
    var c := h.channels[at];
    if c.pending != [] && HasReader(c) {
      var h1 := Pop(h, at);
      var h2 := Dispatch(h1, at, c.pending[0]);
      LogStill(h, h1, ch);
      DispatchKeeps(h1, at, c.pending[0]);
      DispatchStill(h1, at, c.pending[0], ch);
      StillTrans(h, h1, h2, ch);
      FlushStill(h2, at, ch);
      StillTrans(h, h2, Flush(h2, at), ch);
    } else {
      LogStill(h, h, ch);
    }
  }

  lemma {:induction false} DrainStill(h: State, at: string, id: Id, ch: string)
    requires at in h.channels
    ensures Still(h, Drain(h, at, id), ch)
    decreases |h.channels[at].pending|
  {
    LogStill(h, h, ch);
    if h.channels[at].pending != [] {
      var p, h1, h2 := h.channels[at].pending[0], Pop(h, at), DrainStep(h, at, id);
      LogStill(h, h1, ch);
      NoteStill(h1, Dispatched(at, p), ch);
      StillTrans(h, h1, Note(h1, Dispatched(at, p)), ch);
      PostStill(h, Note(h1, Dispatched(at, p)), id, Deliver(at, ChannelPeer, p), ch);
      DrainStill(h2, at, id, ch);
      StillTrans(h, h2, Drain(h2, at, id), ch);
    }
  }

  lemma EnqueueStill(h: State, at: string, p: Payload, ch: string)
    requires at in h.channels
    ensures Still(h, Enqueue(h, at, p), ch)
  {
    var h1 := h.(channels := h.channels[at := h.channels[at].(pending := h.channels[at].pending + [p])]);
    LogStill(h, h1, ch);
    NoteStill(h1, Accepted(at, p), ch);
    StillTrans(h, h1, Enqueue(h, at, p), ch);
  }

  lemma PublishPeerStill(h: State, id: Id, at: string, p: Payload, ch: string)
    requires at in h.channels
    ensures Still(h, PublishPeer(h, id, at, p), ch)
  {
    var c := h.channels[at];
    var others := Others(h, c.peers, id);
    LogStill(h, h, ch);
    if others != [] {
      var h1 := Note(h, Accepted(at, p));
      NoteStill(h, Accepted(at, p), ch);
      NoteStill(h1, Dispatched(at, p), ch);
      StillTrans(h, h1, Note(h1, Dispatched(at, p)), ch);
      PostAllStill(h, Note(h1, Dispatched(at, p)), others, Deliver(at, ChannelPeer, p), ch);
      PostStill(h, Forwarded(h, at, p, others), id, Ack, ch);
    } else if |c.pending| >= MaxPending {
      PostStill(h, h, id, Refused(Full(at)), ch);
    } else {
      var h1 := Enqueue(h, at, p);
      EnqueueStill(h, at, p, ch);
      if c.ready.Some? && c.ready.value != id && c.ready.value in h.clients {
        DrainStill(h1, at, c.ready.value, ch);
        StillTrans(h, h1, Drain(h1, at, c.ready.value), ch);
        PostStill(h, Drain(h1, at, c.ready.value), id, Ack, ch);
      } else {
        PostStill(h, h1, id, Ack, ch);
      }
    }
  }

  lemma PublishStill(h: State, id: Id, at: string, p: Payload, ch: string)
    ensures Still(h, Publish(h, id, at, p), ch)
  {
    var h0 := Touch(h, at);
    var c := h0.channels[at];
    LogStill(h, h0, ch);
    if id in c.peers {
      PublishPeerStill(h0, id, at, p, ch);
      StillTrans(h, h0, PublishPeer(h0, id, at, p), ch);
    } else if HasReader(c) {
      var h1 := Note(h0, Accepted(at, p));
      NoteStill(h0, Accepted(at, p), ch);
      StillTrans(h, h0, h1, ch);
      DispatchStill(h1, at, p, ch);
      StillTrans(h, h1, Dispatch(h1, at, p), ch);
      PostStill(h, Dispatch(h1, at, p), id, Ack, ch);
    } else if |c.pending| >= MaxPending {
      PostStill(h, h0, id, Refused(Full(at)), ch);
    } else {
      EnqueueStill(h0, at, p, ch);
      StillTrans(h, h0, Enqueue(h0, at, p), ch);
      PostStill(h, Enqueue(h0, at, p), id, Ack, ch);
    }
  }

  /** Offers come from peers, so an idle channel has none. */
  lemma EraseStill(h: State, h1: State, at: string, ch: string)
    requires Still(h, h1, ch) && Members(h1)
    ensures Still(h, MaybeErase(h1, at), ch)
  {
    if at in h1.channels {
      assert MemberOk(h1, at);
    }
    LogStill(h1, MaybeErase(h1, at), ch);
    StillTrans(h, h1, MaybeErase(h1, at), ch);
  }

  lemma RegisterStill(h: State, id: Id, at: string, mode: Mode, ch: string)
    requires Members(h) && id in h.clients
    ensures Still(h, Register(h, id, at, mode), ch)
  {
    var h0 := Touch(h, at);
    var c := h0.channels[at];
    LogStill(h, h0, ch);
    TouchQuiet(h, at);
    QuietKeeps(h, h0);
    if IsReader(mode) && c.writers == [] {
      RefusalStill(h, h0, id, at, NoPublisher(at), ch);
    } else if mode == ChannelPeer && |c.peers| >= 2 {
      RefusalStill(h, h0, id, at, TwoPeers(at), ch);
    } else {
      var h1 := Attach(h0, id, at, mode);
      var h2 := Post(h1, id, Ack);
      LogStill(h0, h1, ch);
      StillTrans(h, h0, h1, ch);
      PostStill(h, h1, id, Ack, ch);
      if IsReader(mode) {
        FlushStill(h2, at, ch);
        StillTrans(h, h2, Flush(h2, at), ch);
      } else if mode == ChannelPeer {
        DrainStill(h2, at, id, ch);
        StillTrans(h, h2, Drain(h2, at, id), ch);
      }
    }
  }

  lemma RefusalStill(h: State, h0: State, id: Id, at: string, reason: Reason, ch: string)
    requires Still(h, h0, ch) && Members(h0) && !reason.NotAttached?
    ensures Still(h, MaybeErase(Post(h0, id, Refused(reason)), at), ch)
  {
    PostStill(h, h0, id, Refused(reason), ch);
    PostKeeps(h0, id, Refused(reason));
    EraseStill(h, Post(h0, id, Refused(reason)), at, ch);
  }

  // ---- the invariant ----

  ghost predicate HandOk(h: State, ch: string, id: Id) {
    var t := Track(h.log, id, ch);
    && t.stray == 0 && t.offers == t.answers + t.lost + (if t.waiting then 1 else 0)
    && (t.waiting <==> Parked(h, ch) == Some(id))
  }

  /** Whoever waits is parked, whoever is parked waits, and all other offers are settled. */
  ghost predicate HandInv(h: State, ch: string) {
    forall id {:trigger HandOk(h, ch, id)} :: HandOk(h, ch, id)
  }

  predicate Waiting(h: State, id: Id, ch: string) {
    Track(h.log, id, ch).waiting
  }

  /** The clients' discipline: while an offer is open, its client does not offer again on
      that channel and does not detach from it. */
  predicate Disciplined(h: State, s: Step, ch: string) {
    match s
    case From(id, OfferMsg(at)) => at == ch ==> !Waiting(h, id, ch)
    case From(id, DetachMsg(at, _)) => at == ch ==> !Waiting(h, id, ch)
    case _ => true
  }

  lemma StillKeeps(h: State, h1: State, ch: string)
    requires HandInv(h, ch) && Still(h, h1, ch)
    ensures HandInv(h1, ch)
  {
    forall id
      ensures HandOk(h1, ch, id)
    {
      assert HandOk(h, ch, id) && SameStanding(h, h1, ch, id);
    }
  }

  /** Leaving a channel drops the client's own offer and no other. */
  lemma LeaveParked(h: State, h0: State, id: Id, at: string, ch: string)
    requires Members(h) && h0.channels == h.channels
    ensures Leave(h0, id, at).log == h0.log
    ensures Parked(Leave(h0, id, at), ch) == if at == ch then Clear(Parked(h, ch), id) else Parked(h, ch)
  {
    if at in h.channels {
      assert MemberOk(h, at);
      ErasePeers(h.channels[at].peers, id);
    }
  }

  lemma DetachKeepsHand(h: State, id: Id, at: string, mode: Mode, ch: string)
    requires HandInv(h, ch) && Members(h) && id in h.clients && (at == ch ==> !Waiting(h, id, ch))
    ensures HandInv(Unregister(h, id, at, mode), ch)
  {
    var h0 := h.(clients := h.clients[id := Client(Unlisted(h.clients[id].attachments, at, mode))]);
    LeaveParked(h, h0, id, at, ch);
    assert HandOk(h, ch, id);
    LogStill(h, Leave(h0, id, at), ch);
    StillKeeps(h, Leave(h0, id, at), ch);
  }

  lemma {:induction false} LeaveAllParked(h: State, id: Id, list: seq<(string, Mode)>, ch: string)
    requires Members(h)
    ensures Parked(LeaveAll(h, id, list), ch) == Parked(h, ch) || Parked(h, ch) == Some(id)
    decreases |list|
  {
    if list != [] {
      LeaveParked(h, h, id, list[0].0, ch);
      LeaveKeeps(h, id, list[0].0);
      LeaveAllParked(Leave(h, id, list[0].0), id, list[1..], ch);
    }
  }

  lemma CloseKeepsHand(h: State, id: Id, ch: string)
    requires HandInv(h, ch) && Members(h)
    ensures HandInv(Close(h, id), ch)
  {
    if id in h.clients {
      var h1, h2 := LeaveAll(h, id, h.clients[id].attachments), Close(h, id);
      LeaveAllEffect(h, id, h.clients[id].attachments);
      LeaveAllParked(h, id, h.clients[id].attachments, ch);
      CloseForgets(h, id);
      forall x
        ensures HandOk(h2, ch, x)
      {
        assert HandOk(h, ch, x);
        NoteMoves(h1.(clients := h1.clients - {id}), Gone(id), x, ch);
      }
    }
  }

  /** An answer to the parked client settles its offer. */
  lemma AnswerKeeps(h: State, h1: State, h2: State, id: Id, f: Frame, ch: string)
    requires HandInv(h, ch) && Answers(f, ch) && Parked(h, ch) == Some(id) && Parked(h1, ch) == None && h1.log == h.log
    requires h2 == Note(h1, Sent(id, f))
    ensures HandInv(h2, ch)
  {
    forall x
      ensures HandOk(h2, ch, x)
    {
      assert HandOk(h, ch, x);
      NoteMoves(h1, Sent(id, f), x, ch);
    }
  }

  /** An offer that is answered at once leaves nothing open. */
  lemma OfferAnswered(h: State, h1: State, id: Id, f: Frame, ch: string)
    requires HandInv(h, ch) && !Waiting(h, id, ch) && Answers(f, ch) && Parked(h1, ch) == Parked(h, ch)
    requires h1.log == h.log + [Offered(id, ch)]
    ensures HandInv(Note(h1, Sent(id, f)), ch)
  {
    var h2 := Note(h1, Sent(id, f));
    forall x
      ensures HandOk(h2, ch, x)
    {
      assert HandOk(h, ch, x);
      NoteMoves(h, Offered(id, ch), x, ch);
      NoteMoves(h1, Sent(id, f), x, ch);
    }
  }

  /** An offer that is parked is the one open. */
  lemma OfferParked(h: State, h1: State, id: Id, ch: string)
    requires HandInv(h, ch) && !Waiting(h, id, ch) && Parked(h, ch) == None && Parked(h1, ch) == Some(id)
    requires h1.log == h.log + [Offered(id, ch)]
    ensures HandInv(h1, ch)
  {
    forall x
      ensures HandOk(h1, ch, x)
    {
      assert HandOk(h, ch, x);
      NoteMoves(h, Offered(id, ch), x, ch);
    }
  }

  lemma OfferKeepsHand(h: State, id: Id, ch: string)
    requires HandInv(h, ch) && Members(h) && id in h.clients && !Waiting(h, id, ch)
    ensures HandInv(Offer(h, id, ch), ch)
  {
    hide Members, Waiting;
    var h0 := Note(Touch(h, ch), Offered(id, ch));
    var c := h0.channels[ch];
    ParkedOf(h, id, ch);
    hide HandInv;
    if id !in c.peers {
      OfferAnswered(h, h0, id, Refused(NotAttached(ch)), ch);
    } else if c.offer.Some? && c.offer.value != id {
      CollisionKeeps(h, id, ch);
    } else if (exists x | x in c.peers :: x != id) || (c.ready.Some? && c.ready.value != id) {
      OfferAnswered(h, SetSlots(h0, ch, None, None), id, Accept(ch), ch);
    } else {
      OfferParked(h, SetSlots(h0, ch, Some(id), c.ready), id, ch);
    }
  }

  /** A client that does not wait is not parked. */
  lemma ParkedOf(h: State, id: Id, ch: string)
    requires HandInv(h, ch) && !Waiting(h, id, ch)
    ensures Parked(h, ch) != Some(id) && Parked(h, ch) == Touch(h, ch).channels[ch].offer
  {
    assert HandOk(h, ch, id);
  }

  /** Two offers at once: both are told to try again. */
  lemma CollisionKeeps(h: State, id: Id, ch: string)
    requires HandInv(h, ch) && Members(h) && id in h.clients && !Waiting(h, id, ch) && ch in h.channels
    requires id in h.channels[ch].peers && h.channels[ch].offer.Some? && h.channels[ch].offer.value != id
    ensures HandInv(Offer(h, id, ch), ch)
  {
    var h0 := Note(h, Offered(id, ch));
    var c := h.channels[ch];
    var other := c.offer.value;
    assert MemberOk(h, ch);
    OfferAnswered(h, h0, id, Busy(ch), ch);
    var h1 := Note(h0, Sent(id, Busy(ch)));
    var h2 := SetSlots(h1, ch, None, c.ready);
    assert Offer(h, id, ch) == Note(h2, Sent(other, Busy(ch)));
    AnswerKeeps(h1, h2, Note(h2, Sent(other, Busy(ch))), other, Busy(ch), ch);
  }

  lemma ReadyKeepsHand(h: State, id: Id, ch: string)
    requires HandInv(h, ch) && Members(h) && id in h.clients
    ensures HandInv(RecvReady(h, id, ch), ch)
  {
    var h0 := Touch(h, ch);
    var c := h0.channels[ch];
    LogStill(h, h0, ch);
    StillKeeps(h, h0, ch);
    TouchQuiet(h, ch);
    QuietKeeps(h, h0);
    assert MemberOk(h0, ch);
    if id !in c.peers {
      RefusedReady(h0, id, ch);
    } else {
      var h1 := GrantParked(h0, id, ch);
      if c.offer.Some? && c.offer.value != id {
        assert ch in h.channels && MemberOk(h, ch);
        AnswerKeeps(h0, SetSlots(h0, ch, None, c.ready), h1, c.offer.value, Accept(ch), ch);
      }
      DrainKeeps(h1, ch, id);
      DrainStill(h1, ch, id, ch);
      var h2 := Drain(h1, ch, id);
      var h3 := SetSlots(h2, ch, h2.channels[ch].offer, Some(id));
      LogStill(h2, h3, ch);
      StillTrans(h1, h2, h3, ch);
      StillKeeps(h1, h3, ch);
    }
  }

  /** Only a peer can be parked, so a refused `RecvReady` ends nobody's wait. */
  lemma RefusedReady(h: State, id: Id, ch: string)
    requires HandInv(h, ch) && ch in h.channels && id !in h.channels[ch].peers && id in h.clients
    requires h.channels[ch].offer != Some(id)
    ensures HandInv(Post(h, id, Refused(NotAttached(ch))), ch)
  {
    var h1 := Post(h, id, Refused(NotAttached(ch)));
    forall x
      ensures HandOk(h1, ch, x)
    {
      assert HandOk(h, ch, x);
      NoteMoves(h, Sent(id, Refused(NotAttached(ch))), x, ch);
    }
  }

  lemma OfferElsewhereStill(h: State, id: Id, at: string, ch: string)
    requires at != ch
    ensures Still(h, Offer(h, id, at), ch)
  {
    var h0 := Note(Touch(h, at), Offered(id, at));
    var c := h0.channels[at];
    LogStill(h, Touch(h, at), ch);
    NoteStill(Touch(h, at), Offered(id, at), ch);
    StillTrans(h, Touch(h, at), h0, ch);
    if id !in c.peers {
      PostStill(h, h0, id, Refused(NotAttached(at)), ch);
    } else if c.offer.Some? && c.offer.value != id {
      var h1 := SetSlots(h0, at, None, c.ready);
      LogStill(h0, h1, ch);
      StillTrans(h, h0, h1, ch);
      PostStill(h, h1, id, Busy(at), ch);
      PostStill(h, Post(h1, id, Busy(at)), c.offer.value, Busy(at), ch);
    } else if (exists x | x in c.peers :: x != id) || (c.ready.Some? && c.ready.value != id) {
      var h1 := SetSlots(h0, at, None, None);
      LogStill(h0, h1, ch);
      StillTrans(h, h0, h1, ch);
      PostStill(h, h1, id, Accept(at), ch);
    } else {
      var h1 := SetSlots(h0, at, Some(id), c.ready);
      LogStill(h0, h1, ch);
      StillTrans(h, h0, h1, ch);
    }
  }

  lemma ReadyElsewhereStill(h: State, id: Id, at: string, ch: string)
    requires at != ch
    ensures Still(h, RecvReady(h, id, at), ch)
  {
    var h0 := Touch(h, at);
    var c := h0.channels[at];
    LogStill(h, h0, ch);
    if id !in c.peers {
      PostStill(h, h0, id, Refused(NotAttached(at)), ch);
    } else {
      var h1 := GrantParked(h0, id, at);
      if c.offer.Some? && c.offer.value != id {
        LogStill(h0, SetSlots(h0, at, None, c.ready), ch);
        StillTrans(h, h0, SetSlots(h0, at, None, c.ready), ch);
        PostStill(h, SetSlots(h0, at, None, c.ready), c.offer.value, Accept(at), ch);
      }
      DrainKeeps(h1, at, id);
      DrainStill(h1, at, id, ch);
      StillTrans(h, h1, Drain(h1, at, id), ch);
      var h2 := if id in h1.clients then Drain(h1, at, id) else h1;
      var h3 := SetSlots(h2, at, h2.channels[at].offer, Some(id));
      LogStill(h2, h3, ch);
      StillTrans(h, h2, h3, ch);
    }
  }

  /** A second offer of a client that waits is one too many: it is parked over the first or
      both are granted with one answer. */
  lemma SecondOffer(h: State, id: Id, ch: string)
    requires HandInv(h, ch) && Members(h) && id in h.clients && Waiting(h, id, ch)
    ensures !HandInv(Offer(h, id, ch), ch)
  {
    var r, h0 := Offer(h, id, ch), Note(Touch(h, ch), Offered(id, ch));
    assert HandOk(h, ch, id) && MemberOk(h, ch);
    var c := h.channels[ch];
    assert c.offer == Some(id) && id in c.peers;
    NoteMoves(Touch(h, ch), Offered(id, ch), id, ch);
    if (exists x | x in c.peers :: x != id) || (c.ready.Some? && c.ready.value != id) {
      NoteMoves(SetSlots(h0, ch, None, None), Sent(id, Accept(ch)), id, ch);
    }
    assert !HandOk(r, ch, id);
  }

  /** A client that detaches while it waits: the hub forgets its offer, and nobody will ever
      answer it. */
  lemma DetachedOfferLost(h: State, id: Id, ch: string, mode: Mode)
    requires HandInv(h, ch) && Members(h) && id in h.clients && Waiting(h, id, ch)
    ensures Waiting(Unregister(h, id, ch, mode), id, ch) && Parked(Unregister(h, id, ch, mode), ch) != Some(id)
    ensures !HandInv(Unregister(h, id, ch, mode), ch)
  {
    var h0 := h.(clients := h.clients[id := Client(Unlisted(h.clients[id].attachments, ch, mode))]);
    LeaveParked(h, h0, id, ch, ch);
    assert !HandOk(Unregister(h, id, ch, mode), ch, id);
  }

  lemma HandNext(h: State, s: Step, ch: string)
    requires HandInv(h, ch) && Members(h) && Possible(h, s) && Disciplined(h, s, ch)
    ensures HandInv(Next(h, s), ch)
  {
    match s
    case Connect(_) => LogStill(h, Next(h, s), ch); StillKeeps(h, Next(h, s), ch);
    case Lost(id) => CloseKeepsHand(h, id, ch);
    case From(id, r) =>
      match r
      case ByeMsg => CloseKeepsHand(h, id, ch);
      case DetachMsg(at, mode) => DetachKeepsHand(h, id, at, mode, ch);
      case AttachMsg(at, mode) => RegisterStill(h, id, at, mode, ch); StillKeeps(h, Next(h, s), ch);
      case PublishMsg(at, p) => PublishStill(h, id, at, p, ch); StillKeeps(h, Next(h, s), ch);
      case OfferMsg(at) =>
        if at == ch {
          OfferKeepsHand(h, id, ch);
        } else {
          OfferElsewhereStill(h, id, at, ch);
          StillKeeps(h, Next(h, s), ch);
        }
      case ReadyMsg(at) =>
        if at == ch {
          ReadyKeepsHand(h, id, ch);
        } else {
          ReadyElsewhereStill(h, id, at, ch);
          StillKeeps(h, Next(h, s), ch);
        }
      case DataAckMsg(at) => LogStill(h, Next(h, s), ch); StillKeeps(h, Next(h, s), ch);
      case _ =>
  }

  /** The discipline is exactly what a step needs to keep the handshake in order. */
  lemma HandExactly(h: State, s: Step, ch: string)
    requires HandInv(h, ch) && Members(h) && Possible(h, s)
    ensures HandInv(Next(h, s), ch) <==> Disciplined(h, s, ch)
  {
    if Disciplined(h, s, ch) {
      HandNext(h, s, ch);
    } else {
      match s.message
      case OfferMsg(_) => SecondOffer(h, s.id, ch);
      case DetachMsg(_, mode) => DetachedOfferLost(h, s.id, ch, mode);
    }
  }

  ghost predicate DisciplinedRun(steps: seq<Step>, ch: string)
    requires Run(steps)
    decreases |steps|
  {
    steps == [] ||
    (DisciplinedRun(steps[..|steps| - 1], ch) && Disciplined(After(steps[..|steps| - 1]), steps[|steps| - 1], ch))
  }

  /** The handshake, over every disciplined run. */
  lemma {:induction false} OffersSettled(steps: seq<Step>, ch: string)
    requires Run(steps) && DisciplinedRun(steps, ch)
    ensures HandInv(After(steps), ch)
    decreases |steps|
  {
    if steps == [] {
      forall id
        ensures HandOk(Empty, ch, id)
      {
      }
    } else {
      MembersAlways(steps[..|steps| - 1]);
      OffersSettled(steps[..|steps| - 1], ch);
      HandNext(After(steps[..|steps| - 1]), steps[|steps| - 1], ch);
    }
  }

  /** At most one client waits on a channel at any time. */
  lemma OneWaits(steps: seq<Step>, ch: string, a: Id, b: Id)
    requires Run(steps) && DisciplinedRun(steps, ch) && Waiting(After(steps), a, ch) && Waiting(After(steps), b, ch)
    ensures a == b
  {
    OffersSettled(steps, ch);
    assert HandOk(After(steps), ch, a) && HandOk(After(steps), ch, b);
  }

  /** The handshake was in order all along. */
  ghost predicate HandAlways(steps: seq<Step>, ch: string)
    requires Run(steps)
    decreases |steps|
  {
    HandInv(After(steps), ch) && (steps == [] || HandAlways(steps[..|steps| - 1], ch))
  }

  /** Over every run, exactly: the handshake is in order all along if and only if the
      clients kept the discipline. */
  lemma {:induction false} DisciplineExactly(steps: seq<Step>, ch: string)
    requires Run(steps)
    ensures HandAlways(steps, ch) <==> DisciplinedRun(steps, ch)
    decreases |steps|
  {
    if steps == [] {
      OffersSettled(steps, ch);
    } else {
      var before, s := steps[..|steps| - 1], steps[|steps| - 1];
      DisciplineExactly(before, ch);
      if HandAlways(before, ch) {
        MembersAlways(before);
        HandExactly(After(before), s, ch);
      }
    }
  }

  // ---- runs that break the discipline ----

  /** A lone peer that offers to send. */
  function LonelyOffer(id: Id, ch: string): seq<Step> {
    [Connect(id), From(id, AttachMsg(ch, ChannelPeer)), From(id, OfferMsg(ch))]
  }

  lemma LonelyOfferRuns(id: Id, ch: string)
    ensures Run(LonelyOffer(id, ch)) && id in After(LonelyOffer(id, ch)).clients
    ensures Waiting(After(LonelyOffer(id, ch)), id, ch) && DisciplinedRun(LonelyOffer(id, ch), ch)
  {
    hide Register, Offer, Waiting, Attach;
    var one, attach, offer := [Connect(id)], From(id, AttachMsg(ch, ChannelPeer)), From(id, OfferMsg(ch));
    RunMore([], Connect(id));
    assert [] + one == one;
    LoneAttach(After(one), id, ch);
    RunMore(one, attach);
    RunMore(one + [attach], offer);
    LoneOffer(After(one + [attach]), id, ch);
    assert LonelyOffer(id, ch) == one + [attach] + [offer];
    OneStep(one, attach, ch);
    OneStep(one + [attach], offer, ch);
  }

  lemma OneStep(steps: seq<Step>, s: Step, ch: string)
    requires Run(steps) && Possible(After(steps), s) && Run(steps + [s])
    ensures DisciplinedRun(steps + [s], ch) <==> DisciplinedRun(steps, ch) && Disciplined(After(steps), s, ch)
  {
    assert (steps + [s])[..|steps|] == steps;
  }

  lemma LoneOffer(h: State, id: Id, ch: string)
    requires id in h.clients && ch in h.channels && h.channels[ch].peers == [id] && h.channels[ch].offer == None
    requires h.channels[ch].ready == None
    ensures Waiting(Offer(h, id, ch), id, ch) && id in Offer(h, id, ch).clients
  {
    NoteMoves(h, Offered(id, ch), id, ch);
  }

  /** The first peer of a new channel. */
  lemma LoneAttach(h: State, id: Id, ch: string)
    requires h == Next(Empty, Connect(id))
    ensures
      var r := Register(h, id, ch, ChannelPeer);
      && id in r.clients && ch in r.channels && r.channels[ch].peers == [id] && r.channels[ch].offer == None
      && r.channels[ch].ready == None && !Waiting(r, id, ch)
  {
    var h1 := Attach(Touch(h, ch), id, ch, ChannelPeer);
    NoteMoves(h1, Sent(id, Ack), id, ch);
    assert [] + [id] == [id];
  }

  /** A run in which the lone peer then detaches: its offer is open for ever. */
  lemma OfferForgotten(id: Id, ch: string)
    ensures
      var run := LonelyOffer(id, ch) + [From(id, DetachMsg(ch, ChannelPeer))];
      Run(run) && Waiting(After(run), id, ch) && Parked(After(run), ch) == None
  {
    var run := LonelyOffer(id, ch) + [From(id, DetachMsg(ch, ChannelPeer))];
    LonelyOfferRuns(id, ch);
    assert run[..3] == LonelyOffer(id, ch);
    OffersSettled(LonelyOffer(id, ch), ch);
    MembersAlways(LonelyOffer(id, ch));
    var h := After(LonelyOffer(id, ch));
    DetachedOfferLost(h, id, ch, ChannelPeer);
    assert HandOk(h, ch, id);
    var h0 := h.(clients := h.clients[id := Client(Unlisted(h.clients[id].attachments, ch, ChannelPeer))]);
    LeaveParked(h, h0, id, ch, ch);
  }

  /** A run in which it offers again: two offers, one place to park them. */
  lemma OfferTwice(id: Id, ch: string)
    ensures
      var run := LonelyOffer(id, ch) + [From(id, OfferMsg(ch))];
      Run(run) && !HandInv(After(run), ch)
  {
    var run := LonelyOffer(id, ch) + [From(id, OfferMsg(ch))];
    LonelyOfferRuns(id, ch);
    assert run[..3] == LonelyOffer(id, ch);
    OffersSettled(LonelyOffer(id, ch), ch);
    MembersAlways(LonelyOffer(id, ch));
    SecondOffer(After(LonelyOffer(id, ch)), id, ch);
  }
}
