/** Who is where: every id the hub keeps in a channel is a live client that attached to
    it, and a client that is gone is nowhere. */
module Membership {
  import opened Bytes
  import opened Syntax
  import opened Hub

  /** Every id of `list` is a live client attached to `ch` in this mode. */
  ghost predicate Held(h: State, list: seq<Id>, ch: string, mode: Mode) {
    forall id | id in list :: id in h.clients && (ch, mode) in h.clients[id].attachments
  }

  ghost predicate MemberOk(h: State, ch: string)
    requires ch in h.channels
  {
    var c := h.channels[ch];
    && Held(h, c.queueReaders, ch, QueueIn) && Held(h, c.broadcastReaders, ch, BroadcastIn)
    && Held(h, c.writers, ch, Writer) && Held(h, c.peers, ch, ChannelPeer)
    && |c.peers| <= 2
    && (c.offer.Some? ==> c.offer.value in c.peers) && (c.ready.Some? ==> c.ready.value in c.peers)
  }

  ghost predicate Members(h: State) {
    forall ch {:trigger MemberOk(h, ch)} | ch in h.channels :: MemberOk(h, ch)
  }

  /** The channel does not know the client at all. */
  predicate Absent(c: Channel, id: Id) {
    && id !in c.queueReaders && id !in c.broadcastReaders && id !in c.writers && id !in c.peers
    && c.offer != Some(id) && c.ready != Some(id)
  }

  /** What a channel knows of its clients. */
  function Roster(c: Channel): Channel {
    c.(pending := [], cursor := 0)
  }

  /** The channel is as it was, up to its backlog, or new. */
  ghost predicate SameRoster(h: State, h1: State, ch: string)
    requires ch in h1.channels
  {
    (ch in h.channels && Roster(h1.channels[ch]) == Roster(h.channels[ch])) || Roster(h1.channels[ch]) == NoChannel
  }

  ghost predicate Quiet(h: State, h1: State) {
    h1.clients == h.clients && forall ch {:trigger SameRoster(h, h1, ch)} | ch in h1.channels :: SameRoster(h, h1, ch)
  }

  lemma QuietKeeps(h: State, h1: State)
    requires Members(h) && Quiet(h, h1)
    ensures Members(h1)
  {
    forall ch | ch in h1.channels
      ensures MemberOk(h1, ch)
    {
      assert SameRoster(h, h1, ch);
      if ch in h.channels {
        assert MemberOk(h, ch);
      }
    }
  }

  lemma QuietTrans(h: State, h1: State, h2: State)
    requires Quiet(h, h1) && Quiet(h1, h2)
    ensures Quiet(h, h2)
  {
    forall ch | ch in h2.channels
      ensures SameRoster(h, h2, ch)
    {
      assert SameRoster(h1, h2, ch);
      if ch in h1.channels {
        assert SameRoster(h, h1, ch);
      }
    }
  }

  lemma TouchQuiet(h: State, ch: string)
    ensures Quiet(h, Touch(h, ch))
  {
    var h1 := Touch(h, ch);
    forall x | x in h1.channels
      ensures SameRoster(h, h1, x)
    {
    }
  }

  lemma EraseQuiet(h: State, ch: string)
    ensures Quiet(h, MaybeErase(h, ch))
  {
    var h1 := MaybeErase(h, ch);
    forall x | x in h1.channels
      ensures SameRoster(h, h1, x)
    {
    }
  }

  lemma DispatchQuiet(h: State, ch: string, p: Payload)
    requires ch in h.channels
    ensures Quiet(h, Dispatch(h, ch, p))
  {
    var h1 := Dispatch(h, ch, p);
    PostAllFrame(Note(h, Dispatched(ch, p)), h.channels[ch].broadcastReaders, Deliver(ch, BroadcastIn, p));
    forall x | x in h1.channels
      ensures SameRoster(h, h1, x)
    {
    }
  }

  lemma PopQuiet(h: State, ch: string)
    requires ch in h.channels && h.channels[ch].pending != []
    ensures Quiet(h, Pop(h, ch))
  {
    var h1 := Pop(h, ch);
    forall x | x in h1.channels
      ensures SameRoster(h, h1, x)
    {
    }
  }

  lemma {:induction false} FlushQuiet(h: State, ch: string)
    requires ch in h.channels
    ensures Quiet(h, Flush(h, ch))
    decreases |h.channels[ch].pending|
  {
    var c := h.channels[ch];
    if c.pending != [] && HasReader(c) {
      var h1 := Pop(h, ch);
      var h2 := Dispatch(h1, ch, c.pending[0]);
      PopQuiet(h, ch);
      DispatchQuiet(h1, ch, c.pending[0]);
      DispatchKeeps(h1, ch, c.pending[0]);
      FlushQuiet(h2, ch);
      QuietTrans(h, h1, h2);
      QuietTrans(h, h2, Flush(h2, ch));
    } else {
      forall x | x in h.channels
        ensures SameRoster(h, h, x)
      {
      }
    }
  }

  lemma DrainQuiet(h: State, ch: string, id: Id)
    requires ch in h.channels
    ensures Quiet(h, Drain(h, ch, id))
  {
    DrainKeeps(h, ch, id);
    var h1 := Drain(h, ch, id);
    forall x | x in h1.channels
      ensures SameRoster(h, h1, x)
    {
    }
  }

  lemma QuietLog(h: State, h1: State, h2: State)
    requires Quiet(h, h1) && h2.clients == h1.clients && h2.channels == h1.channels
    ensures Quiet(h, h2)
  {
    forall x | x in h2.channels
      ensures SameRoster(h, h2, x)
    {
      assert SameRoster(h, h1, x);
    }
  }

  // ---- joining ----

  lemma AttachKeeps(h: State, id: Id, ch: string, mode: Mode)
    requires Members(h) && id in h.clients && ch in h.channels && (mode == ChannelPeer ==> |h.channels[ch].peers| < 2)
    ensures Members(Attach(h, id, ch, mode))
  {
    var h1 := Attach(h, id, ch, mode);
    forall x | x in h1.channels
      ensures MemberOk(h1, x)
    {
      assert MemberOk(h, x);
    }
  }

  lemma RegisterKeeps(h: State, id: Id, ch: string, mode: Mode)
    requires Members(h) && id in h.clients
    ensures Members(Register(h, id, ch, mode))
  {
    var h0 := Touch(h, ch);
    var c := h0.channels[ch];
    TouchQuiet(h, ch);
    QuietKeeps(h, h0);
    if IsReader(mode) && c.writers == [] {
      RefuseKeeps(h0, id, ch, NoPublisher(ch));
    } else if mode == ChannelPeer && |c.peers| >= 2 {
      RefuseKeeps(h0, id, ch, TwoPeers(ch));
    } else {
      AttachKeeps(h0, id, ch, mode);
      var h1 := Attach(h0, id, ch, mode);
      var h2 := Post(h1, id, Ack);
      assert Members(h2) by { PostKeeps(h1, id, Ack); }
      if IsReader(mode) {
        FlushQuiet(h2, ch);
        QuietKeeps(h2, Flush(h2, ch));
      } else if mode == ChannelPeer {
        DrainQuiet(h2, ch, id);
        QuietKeeps(h2, Drain(h2, ch, id));
      }
    }
  }

  lemma PostKeeps(h: State, id: Id, f: Frame)
    requires Members(h)
    ensures Members(Post(h, id, f))
  {
    var h1 := Post(h, id, f);
    forall x | x in h1.channels
      ensures MemberOk(h1, x)
    {
      assert MemberOk(h, x);
    }
  }

  lemma RefuseKeeps(h: State, id: Id, ch: string, reason: Reason)
    requires Members(h)
    ensures Members(MaybeErase(Post(h, id, Refused(reason)), ch))
  {
    PostKeeps(h, id, Refused(reason));
    EraseQuiet(Post(h, id, Refused(reason)), ch);
    QuietKeeps(Post(h, id, Refused(reason)), MaybeErase(Post(h, id, Refused(reason)), ch));
  }

  // ---- leaving ----

  lemma WithoutAbsent(c: Channel, id: Id)
    ensures Absent(WithoutClient(c, id), id)
  {
  }

  /** Leaving touches no other channel, and the client is gone from this one. */
  lemma LeaveEffect(h: State, id: Id, ch: string)
    ensures
      var h1 := Leave(h, id, ch);
      && h1.clients == h.clients && h1.log == h.log
      && (forall x {:trigger h1.channels[x]} | x in h1.channels && x != ch ::
        x in h.channels && h1.channels[x] == h.channels[x])
      && (ch in h1.channels ==> ch in h.channels && h1.channels[ch] == WithoutClient(h.channels[ch], id))
  {
  }

  lemma LeaveKeeps(h: State, id: Id, ch: string)
    requires Members(h)
    ensures Members(Leave(h, id, ch))
  {
    var h1 := Leave(h, id, ch);
    LeaveEffect(h, id, ch);
    forall x | x in h1.channels
      ensures MemberOk(h1, x)
    {
      assert MemberOk(h, x);
      if x == ch {
        ErasePeers(h.channels[x].peers, id);
      }
    }
  }

  lemma ErasePeers(list: seq<Id>, id: Id)
    ensures forall x | x in list && x != id :: x in Erase(list, id)
  {
  }

  lemma UnregisterKeeps(h: State, id: Id, ch: string, mode: Mode)
    requires Members(h) && id in h.clients
    ensures Members(Unregister(h, id, ch, mode))
  {
    var h0 := h.(clients := h.clients[id := Client(Unlisted(h.clients[id].attachments, ch, mode))]);
    var h1 := Leave(h0, id, ch);
    LeaveEffect(h0, id, ch);
    forall x | x in h1.channels
      ensures MemberOk(h1, x)
    {
      assert MemberOk(h, x);
      if x == ch {
        WithoutAbsent(h.channels[x], id);
      }
    }
  }

  /** Where the channels of `list` have been left, and nothing else happened. */
  lemma {:induction false} LeaveAllEffect(h: State, id: Id, list: seq<(string, Mode)>)
    ensures
      var h1 := LeaveAll(h, id, list);
      && h1.clients == h.clients && h1.log == h.log
      && (forall x {:trigger h1.channels[x]} | x in h1.channels ::
            x in h.channels && (h1.channels[x] == h.channels[x] || h1.channels[x] == WithoutClient(h.channels[x], id))
            && ((exists m :: (x, m) in list) ==> Absent(h1.channels[x], id)))
    decreases |list|
  {
    if list != [] {
      var h0 := Leave(h, id, list[0].0);
      var h1 := LeaveAll(h0, id, list[1..]);
      LeaveEffect(h, id, list[0].0);
      LeaveAllEffect(h0, id, list[1..]);
      forall x | x in h1.channels
        ensures x in h.channels && (h1.channels[x] == h.channels[x]
          || h1.channels[x] == WithoutClient(h.channels[x], id))
        ensures (exists m :: (x, m) in list) ==> Absent(h1.channels[x], id)
      {
        assert x in h0.channels;
        WithoutTwice(h.channels[x], id);
        if x == list[0].0 {
          WithoutAbsent(h.channels[x], id);
        } else if m :| (x, m) in list {
          assert (x, m) in list[1..];
        }
      }
    }
  }

  lemma {:induction false} EraseTwice(list: seq<Id>, id: Id)
    requires id !in list
    ensures Erase(list, id) == list
  {
    if list != [] {
      EraseTwice(list[1..], id);
    }
  }

  lemma WithoutTwice(c: Channel, id: Id)
    ensures WithoutClient(WithoutClient(c, id), id) == WithoutClient(c, id)
  {
    EraseTwice(Erase(c.queueReaders, id), id);
    EraseTwice(Erase(c.broadcastReaders, id), id);
    EraseTwice(Erase(c.writers, id), id);
    EraseTwice(Erase(c.peers, id), id);
  }

  /** A channel that knows a client is among the client's attachments. */
  lemma ListedWhere(h: State, ch: string, id: Id)
    requires ch in h.channels && MemberOk(h, ch) && id in h.clients && !Absent(h.channels[ch], id)
    ensures exists m :: (ch, m) in h.clients[id].attachments
  {
    var list := h.clients[id].attachments;
    assert (ch, QueueIn) in list || (ch, BroadcastIn) in list || (ch, Writer) in list || (ch, ChannelPeer) in list;
  }

  /** A client that is closed is nowhere any more: whoever gets its id next inherits nothing. */
  lemma CloseForgets(h: State, id: Id)
    requires Members(h) && id in h.clients
    ensures id !in Close(h, id).clients
    ensures forall ch | ch in Close(h, id).channels :: Absent(Close(h, id).channels[ch], id)
  {
    var list := h.clients[id].attachments;
    var h1 := LeaveAll(h, id, list);
    LeaveAllEffect(h, id, list);
    forall ch | ch in h1.channels
      ensures Absent(h1.channels[ch], id)
    {
      assert MemberOk(h, ch);
      WithoutAbsent(h.channels[ch], id);
      if !Absent(h.channels[ch], id) {
        ListedWhere(h, ch, id);
      }
    }
  }

  lemma CloseKeeps(h: State, id: Id)
    requires Members(h)
    ensures Members(Close(h, id))
  {
    if id in h.clients {
      var h1, h2 := LeaveAll(h, id, h.clients[id].attachments), Close(h, id);
      LeaveAllEffect(h, id, h.clients[id].attachments);
      CloseForgets(h, id);
      forall x | x in h2.channels
        ensures MemberOk(h2, x)
      {
        assert x in h1.channels && MemberOk(h, x) && Absent(h2.channels[x], id);
      }
    }
  }

  // ---- publishing and the handshake ----

  lemma EnqueueQuiet(h: State, ch: string, p: Payload)
    requires ch in h.channels
    ensures Quiet(h, Enqueue(h, ch, p))
  {
    var h1 := Enqueue(h, ch, p);
    forall x | x in h1.channels
      ensures SameRoster(h, h1, x)
    {
    }
  }

  /** Publishing moves payloads, not clients. */
  lemma PublishQuiet(h: State, id: Id, ch: string, p: Payload)
    ensures Quiet(h, Publish(h, id, ch, p))
  {
    hide Quiet, PostAll, Dispatch, Drain, Others, Roster;
    var h0, r := Touch(h, ch), Publish(h, id, ch, p);
    var c := h0.channels[ch];
    var others := Others(h0, c.peers, id);
    TouchQuiet(h, ch);
    if id in c.peers && others != [] {
      PostAllFrame(Note(Note(h0, Accepted(ch, p)), Dispatched(ch, p)), others, Deliver(ch, ChannelPeer, p));
      QuietLog(h, h0, r);
    } else if (id in c.peers || !HasReader(c)) && |c.pending| >= MaxPending {
      QuietLog(h, h0, r);
    } else if id in c.peers || !HasReader(c) {
      var h1 := Enqueue(h0, ch, p);
      EnqueueQuiet(h0, ch, p);
      QuietTrans(h, h0, h1);
      if id in c.peers && c.ready.Some? && c.ready.value != id && c.ready.value in h0.clients {
        DrainQuiet(h1, ch, c.ready.value);
        QuietTrans(h, h1, Drain(h1, ch, c.ready.value));
        QuietLog(h, Drain(h1, ch, c.ready.value), r);
      } else {
        QuietLog(h, h1, r);
      }
    } else {
      var h1 := Note(h0, Accepted(ch, p));
      QuietLog(h, h0, h1);
      DispatchQuiet(h1, ch, p);
      QuietTrans(h, h1, Dispatch(h1, ch, p));
      QuietLog(h, Dispatch(h1, ch, p), r);
    }
  }

  lemma SlotsKeep(h: State, ch: string, offer: Option<Id>, ready: Option<Id>)
    requires Members(h) && ch in h.channels
    requires offer.Some? ==> offer.value in h.channels[ch].peers
    requires ready.Some? ==> ready.value in h.channels[ch].peers
    ensures Members(SetSlots(h, ch, offer, ready))
  {
    var h1 := SetSlots(h, ch, offer, ready);
    forall x | x in h1.channels
      ensures MemberOk(h1, x)
    {
      assert MemberOk(h, x);
    }
  }

  lemma LogKeeps(h: State, h1: State)
    requires Members(h) && h1.clients == h.clients && h1.channels == h.channels
    ensures Members(h1)
  {
    forall x | x in h1.channels
      ensures MemberOk(h1, x)
    {
      assert MemberOk(h, x);
    }
  }

  lemma OfferKeeps(h: State, id: Id, ch: string)
    requires Members(h)
    ensures Members(Offer(h, id, ch))
  {
    var h0 := Note(Touch(h, ch), Offered(id, ch));
    var c := h0.channels[ch];
    TouchQuiet(h, ch);
    QuietKeeps(h, Touch(h, ch));
    LogKeeps(Touch(h, ch), h0);
    assert MemberOk(h0, ch);
    if id in c.peers {
      SlotsKeep(h0, ch, None, c.ready);
      SlotsKeep(h0, ch, None, None);
      SlotsKeep(h0, ch, Some(id), c.ready);
      LogKeeps(SetSlots(h0, ch, None, c.ready), Post(SetSlots(h0, ch, None, c.ready), id, Busy(ch)));
    }
    var r := Offer(h, id, ch);
    if r.channels == h0.channels {
      LogKeeps(h0, r);
    } else if r.channels == SetSlots(h0, ch, None, c.ready).channels {
      LogKeeps(SetSlots(h0, ch, None, c.ready), r);
    } else if r.channels == SetSlots(h0, ch, None, None).channels {
      LogKeeps(SetSlots(h0, ch, None, None), r);
    }
  }

  lemma RecvReadyKeeps(h: State, id: Id, ch: string)
    requires Members(h)
    ensures Members(RecvReady(h, id, ch))
  {
    var h0 := Touch(h, ch);
    var c := h0.channels[ch];
    TouchQuiet(h, ch);
    QuietKeeps(h, h0);
    assert MemberOk(h0, ch);
    if id !in c.peers {
      LogKeeps(h0, RecvReady(h, id, ch));
    } else {
      var h1 := if c.offer.Some? && c.offer.value != id
                then Post(SetSlots(h0, ch, None, c.ready), c.offer.value, Accept(ch)) else h0;
      SlotsKeep(h0, ch, None, c.ready);
      if h1 != h0 {
        LogKeeps(SetSlots(h0, ch, None, c.ready), h1);
      }
      DrainKeeps(h1, ch, id);
      DrainQuiet(h1, ch, id);
      QuietKeeps(h1, Drain(h1, ch, id));
      var h2 := if id in h1.clients then Drain(h1, ch, id) else h1;
      assert MemberOk(h2, ch);
      SlotsKeep(h2, ch, h2.channels[ch].offer, Some(id));
    }
  }

  // ---- every run ----

  lemma NextKeeps(h: State, s: Step)
    requires Members(h) && Possible(h, s)
    ensures Members(Next(h, s))
  {
    match s
    case Connect(id) =>
      var h1 := Next(h, s);
      forall x | x in h1.channels
        ensures MemberOk(h1, x)
      {
        assert MemberOk(h, x);
      }
    case Lost(id) => CloseKeeps(h, id);
    case From(id, r) =>
      match r
      case ByeMsg => CloseKeeps(h, id);
      case AttachMsg(ch, mode) => RegisterKeeps(h, id, ch, mode);
      case DetachMsg(ch, mode) => UnregisterKeeps(h, id, ch, mode);
      case PublishMsg(ch, p) => PublishQuiet(h, id, ch, p); QuietKeeps(h, Publish(h, id, ch, p));
      case OfferMsg(ch) => OfferKeeps(h, id, ch);
      case ReadyMsg(ch) => RecvReadyKeeps(h, id, ch);
      case DataAckMsg(ch) => TouchQuiet(h, ch); QuietKeeps(h, Touch(h, ch));
      case _ =>
  }

  /** In every reachable state each id in a list or slot is a live, attached client. */
  lemma {:induction false} MembersAlways(steps: seq<Step>)
    requires Run(steps)
    ensures Members(After(steps))
    decreases |steps|
  {
    if steps != [] {
      MembersAlways(steps[..|steps| - 1]);
      NextKeeps(After(steps[..|steps| - 1]), steps[|steps| - 1]);
    }
  }

  /** A new client starts from nothing, even under an id that was in use before. */
  lemma FreshStart(steps: seq<Step>, id: Id)
    requires Run(steps) && Possible(After(steps), Connect(id))
    ensures forall ch | ch in Next(After(steps), Connect(id)).channels ::
      Absent(Next(After(steps), Connect(id)).channels[ch], id)
  {
    var h := After(steps);
    MembersAlways(steps);
    forall ch | ch in h.channels
      ensures Absent(h.channels[ch], id)
    {
      assert MemberOk(h, ch);
    }
  }
}
