/** Who gets a payload: every broadcast reader a copy, and of the queue readers one, in turn. */
module Fairness {
  import opened Bytes
  import opened Syntax
  import opened Hub
  import opened Membership

  /** The frames one dispatch sends. */
  function Copies(c: Channel, ch: string, p: Payload): seq<Event> {
    Broadcast(c.broadcastReaders, Deliver(ch, BroadcastIn, p)) +
    if c.queueReaders == [] then [] else [Sent(c.queueReaders[c.cursor % |c.queueReaders|], Deliver(ch, QueueIn, p))]
  }

  function Broadcast(ids: seq<Id>, f: Frame): seq<Event> {
    if ids == [] then [] else [Sent(ids[0], f)] + Broadcast(ids[1..], f)
  }

  lemma {:induction false} PostAllSends(h: State, ids: seq<Id>, f: Frame)
    requires forall id | id in ids :: id in h.clients
    ensures PostAll(h, ids, f).log == h.log + Broadcast(ids, f)
    decreases |ids|
  {
    if ids == [] {
      assert h.log + [] == h.log;
    } else {
      PostAllSends(Post(h, ids[0], f), ids[1..], f);
      assert (h.log + [Sent(ids[0], f)]) + Broadcast(ids[1..], f)
        == h.log + ([Sent(ids[0], f)] + Broadcast(ids[1..], f));
    }
  }

  /** One dispatch sends one copy for each broadcast attachment and exactly one copy to
      the queue readers, if there are any, and nothing else. */
  lemma DispatchSends(h: State, ch: string, p: Payload)
    requires Members(h) && ch in h.channels
    ensures Dispatch(h, ch, p).log == h.log + [Dispatched(ch, p)] + Copies(h.channels[ch], ch, p)
  {
    var c, h0 := h.channels[ch], Note(h, Dispatched(ch, p));
    var many := Broadcast(c.broadcastReaders, Deliver(ch, BroadcastIn, p));
    assert MemberOk(h, ch);
    PostAllSends(h0, c.broadcastReaders, Deliver(ch, BroadcastIn, p));
    PostAllFrame(h0, c.broadcastReaders, Deliver(ch, BroadcastIn, p));
    if c.queueReaders == [] {
      assert many + [] == many;
    } else {
      var slot := c.cursor % |c.queueReaders|;
      assert c.queueReaders[slot] in c.queueReaders;
      var one := [Sent(c.queueReaders[slot], Deliver(ch, QueueIn, p))];
      assert ((h.log + [Dispatched(ch, p)]) + many) + one == (h.log + [Dispatched(ch, p)]) + (many + one);
    }
  }

  lemma {:induction false} BroadcastAt(ids: seq<Id>, f: Frame, i: nat)
    requires i < |ids|
    ensures |Broadcast(ids, f)| == |ids| && Broadcast(ids, f)[i] == Sent(ids[i], f)
  {
    BroadcastLength(ids, f);
    if i > 0 {
      BroadcastAt(ids[1..], f, i - 1);
    }
  }

  lemma {:induction false} BroadcastLength(ids: seq<Id>, f: Frame)
    ensures |Broadcast(ids, f)| == |ids|
  {
    if ids != [] {
      BroadcastLength(ids[1..], f);
    }
  }

  // ---- turns ----

  function DispatchAll(h: State, ch: string, ps: seq<Payload>): (r: State)
    requires ch in h.channels
    ensures ch in r.channels
    decreases |ps|
  {
    if ps == [] then h else Dispatch(DispatchAll(h, ch, ps[..|ps| - 1]), ch, ps[|ps| - 1])
  }

  /** The slot whose turn it is after `k` dispatches from cursor `c`, of `n` slots. */
  function Turn(c: nat, k: nat, n: nat): nat
    requires n > 0
  {
    (c + k) % n
  }

  /** While the cursor does not wrap, a batch moves it on by one for each payload. */
  lemma {:induction false} TurnsPass(h: State, ch: string, ps: seq<Payload>)
    requires ch in h.channels && h.channels[ch].queueReaders != [] && h.channels[ch].cursor + |ps| < U64
    ensures
      var c, d := h.channels[ch], DispatchAll(h, ch, ps).channels[ch];
      d == c.(cursor := c.cursor + |ps|)
    decreases |ps|
  {
    if ps != [] {
      var front := ps[..|ps| - 1];
      TurnsPass(h, ch, front);
      var h1 := DispatchAll(h, ch, front);
      DispatchKeeps(h1, ch, ps[|ps| - 1]);
      PostAllFrame(Note(h1, Dispatched(ch, ps[|ps| - 1])), h1.channels[ch].broadcastReaders,
        Deliver(ch, BroadcastIn, ps[|ps| - 1]));
    }
  }

  /** How many of `m` dispatches from cursor `c` go to `slot`. */
  function Share(c: nat, m: nat, n: nat, slot: nat): nat
    requires n > 0
  {
    if m == 0 then 0 else Share(c, m - 1, n, slot) + if Turn(c, m - 1, n) == slot then 1 else 0
  }

  lemma MultipleOutside(d: int, n: nat)
    requires n > 0
    ensures d > 0 ==> d * n >= n
    ensures d < 0 ==> d * n + n <= 0
  {
  }

  lemma DivideUnique(x: int, n: nat, q: int, r: int)
    requires n > 0 && x == q * n + r && 0 <= r < n
    ensures x / n == q && x % n == r
  {
    var d := x / n - q;
    assert x == (x / n) * n + x % n;
    assert d * n == r - x % n;
    MultipleOutside(d, n);
  }

  /** Numbers below `x` that leave remainder `slot`. */
  function Below(x: nat, n: nat, slot: nat): nat
    requires slot < n
  {
    (x + n - 1 - slot) / n
  }

  lemma BelowStep(x: nat, n: nat, slot: nat)
    requires slot < n
    ensures Below(x + 1, n, slot) == Below(x, n, slot) + if x % n == slot then 1 else 0
  {
    var q, r := x / n, x % n;
    assert x == q * n + r;
    assert (q + 1) * n == q * n + n;
    if r == slot {
      DivideUnique(x + n - 1 - slot, n, q, n - 1);
      DivideUnique(x + n - slot, n, q + 1, 0);
    } else if r < slot {
      DivideUnique(x + n - 1 - slot, n, q, r + n - 1 - slot);
      DivideUnique(x + n - slot, n, q, r + n - slot);
    } else {
      DivideUnique(x + n - 1 - slot, n, q + 1, r - 1 - slot);
      DivideUnique(x + n - slot, n, q + 1, r - slot);
    }
  }

  lemma {:induction false} ShareBelow(c: nat, m: nat, n: nat, slot: nat)
    requires slot < n
    ensures Share(c, m, n, slot) == Below(c + m, n, slot) - Below(c, n, slot)
  {
    if m > 0 {
      ShareBelow(c, m - 1, n, slot);
      BelowStep(c + m - 1, n, slot);
    }
  }

  lemma SumQuotient(a: nat, m: nat, n: nat)
    requires n > 0
    ensures (a + m) / n == a / n + m / n || (a + m) / n == a / n + m / n + 1
    ensures m % n == 0 ==> (a + m) / n == a / n + m / n
  {
    var q1, r1, q2, r2 := a / n, a % n, m / n, m % n;
    assert a == q1 * n + r1 && m == q2 * n + r2;
    Distribute(q1, q2, n);
    if r1 + r2 < n {
      DivideUnique(a + m, n, q1 + q2, r1 + r2);
    } else {
      DivideUnique(a + m, n, q1 + q2 + 1, r1 + r2 - n);
    }
  }

  lemma Distribute(a: nat, b: nat, n: nat)
    ensures (a + b) * n == a * n + b * n && (a + b + 1) * n == a * n + b * n + n
  {
  }

  /** Of any `m` consecutive turns every slot gets `m / n`, rounded down or up. */
  lemma FairTurns(c: nat, m: nat, n: nat, slot: nat)
    requires slot < n
    ensures m / n <= Share(c, m, n, slot) <= m / n + (if m % n == 0 then 0 else 1)
  {
    ShareBelow(c, m, n, slot);
    SumQuotient(c + n - 1 - slot, m, n);
  }

  // ---- what the queue readers get ----

  /** The copies the queue readers of `ch` have been sent, in order. */
  function Queued(log: seq<Event>, ch: string): seq<(Id, Payload)> {
    if log == [] then [] else Queued(log[..|log| - 1], ch) + QueuedBy(log[|log| - 1], ch)
  }

  function QueuedBy(e: Event, ch: string): seq<(Id, Payload)> {
    if e.Sent? && e.frame.Deliver? && e.frame.channel == ch && e.frame.mode == QueueIn then [(e.to, e.frame.payload)]
      else []
  }

  lemma {:induction false} QueuedMore(log: seq<Event>, more: seq<Event>, ch: string)
    ensures Queued(log + more, ch) == Queued(log, ch) + Queued(more, ch)
  {
    if more == [] {
      assert log + more == log;
    } else {
      var front, last := more[..|more| - 1], more[|more| - 1];
      QueuedMore(log, front, ch);
      assert (log + more)[..|log + more| - 1] == log + front;
    }
  }

  lemma {:induction false} BroadcastNotQueued(ids: seq<Id>, at: string, p: Payload, ch: string)
    ensures Queued(Broadcast(ids, Deliver(at, BroadcastIn, p)), ch) == []
  {
    if ids != [] {
      var first, rest := [Sent(ids[0], Deliver(at, BroadcastIn, p))], Broadcast(ids[1..], Deliver(at, BroadcastIn, p));
      QueuedMore(first, rest, ch);
      BroadcastNotQueued(ids[1..], at, p, ch);
      assert first[..0] == [];
    }
  }

  /** The payloads handed to the readers in turn, beginning with the reader at the cursor. */
  function Rota(c: Channel, ps: seq<Payload>): (r: seq<(Id, Payload)>)
    requires c.queueReaders != []
    ensures |r| == |ps|
    ensures forall k | 0 <= k < |ps| :: r[k] == (c.queueReaders[Turn(c.cursor, k, |c.queueReaders|)], ps[k])
  {
    if ps == [] then []
    else
      var front := ps[..|ps| - 1];
      Rota(c, front) + [(c.queueReaders[Turn(c.cursor, |front|, |c.queueReaders|)], ps[|front|])]
  }

  /** One dispatch sends the queue readers one copy, to the reader at the cursor. */
  lemma DispatchQueues(h: State, ch: string, p: Payload)
    requires Members(h) && ch in h.channels && h.channels[ch].queueReaders != []
    ensures
      var c := h.channels[ch];
      Queued(Dispatch(h, ch, p).log, ch) == Queued(h.log, ch) + [(c.queueReaders[c.cursor % |c.queueReaders|], p)]
  {
    hide Dispatch, Members, Broadcast;
    var c := h.channels[ch];
    var many := Broadcast(c.broadcastReaders, Deliver(ch, BroadcastIn, p));
    var one := [Sent(c.queueReaders[c.cursor % |c.queueReaders|], Deliver(ch, QueueIn, p))];
    DispatchSends(h, ch, p);
    QueuedMore(h.log + [Dispatched(ch, p)], many + one, ch);
    QueuedMore(h.log, [Dispatched(ch, p)], ch);
    QueuedMore(many, one, ch);
    BroadcastNotQueued(c.broadcastReaders, ch, p, ch);
    assert one[..0] == [] && [Dispatched(ch, p)][..0] == [];
  }

  /** A batch of dispatches: payload `k` goes to the reader `k` turns behind the cursor, and
      the queue readers are sent nothing else. */
  lemma {:induction false} BatchQueues(h: State, ch: string, ps: seq<Payload>)
    requires Members(h) && ch in h.channels && h.channels[ch].queueReaders != [] && h.channels[ch].cursor + |ps| < U64
    ensures Queued(DispatchAll(h, ch, ps).log, ch) == Queued(h.log, ch) + Rota(h.channels[ch], ps)
    ensures Members(DispatchAll(h, ch, ps))
    decreases |ps|
  {
    hide Dispatch, Members, Queued;
    if ps != [] {
      var front, p := ps[..|ps| - 1], ps[|ps| - 1];
      var h1 := DispatchAll(h, ch, front);
      BatchQueues(h, ch, front);
      TurnsPass(h, ch, front);
      DispatchQueues(h1, ch, p);
      DispatchQuiet(h1, ch, p);
      QuietKeeps(h1, Dispatch(h1, ch, p));
    }
  }

  /** How many copies went to `id`. */
  function Received(sent: seq<(Id, Payload)>, id: Id): nat {
    if sent == [] then 0 else Received(sent[..|sent| - 1], id) + if sent[|sent| - 1].0 == id then 1 else 0
  }

  /** How many slots `id` has. */
  function Slots(readers: seq<Id>, id: Id): nat {
    if readers == [] then 0 else Slots(readers[..|readers| - 1], id) + if readers[|readers| - 1] == id then 1 else 0
  }

  /** The turns of the slots below `upto` that belong to `id`. */
  function Shares(readers: seq<Id>, c: nat, m: nat, upto: nat, id: Id): nat
    requires upto <= |readers|
  {
    if upto == 0 then 0
    else Shares(readers, c, m, upto - 1, id) + if readers[upto - 1] == id then Share(c, m, |readers|, upto - 1) else 0
  }

  lemma {:induction false} SharesStep(readers: seq<Id>, c: nat, m: nat, upto: nat, id: Id)
    requires upto <= |readers| && readers != []
    ensures
      var slot := Turn(c, m, |readers|);
      Shares(readers, c, m + 1, upto, id) == Shares(readers, c, m, upto, id) + if slot < upto
        && readers[slot] == id then 1 else 0
  {
    if upto > 0 {
      SharesStep(readers, c, m, upto - 1, id);
    }
  }

  lemma {:induction false} SharesNone(readers: seq<Id>, c: nat, upto: nat, id: Id)
    requires upto <= |readers|
    ensures Shares(readers, c, 0, upto, id) == 0
  {
    if upto > 0 {
      SharesNone(readers, c, upto - 1, id);
    }
  }

  lemma {:induction false} ReceivedShares(c: Channel, ps: seq<Payload>, id: Id)
    requires c.queueReaders != []
    ensures Received(Rota(c, ps), id) == Shares(c.queueReaders, c.cursor, |ps|, |c.queueReaders|, id)
    decreases |ps|
  {
    var n := |c.queueReaders|;
    if ps == [] {
      SharesNone(c.queueReaders, c.cursor, n, id);
    } else {
      var front := ps[..|ps| - 1];
      ReceivedShares(c, front, id);
      SharesStep(c.queueReaders, c.cursor, |front|, n, id);
      assert Rota(c, ps)[..|front|] == Rota(c, front);
    }
  }

  lemma {:induction false} SharesFair(readers: seq<Id>, c: nat, m: nat, upto: nat, id: Id)
    requires upto <= |readers| && readers != []
    ensures
      var q, extra, k := m / |readers|, if m % |readers| == 0 then 0 else 1, Slots(readers[..upto], id);
      k * q <= Shares(readers, c, m, upto, id) <= k * (q + extra)
  {
    var q, extra := m / |readers|, if m % |readers| == 0 then 0 else 1;
    if upto > 0 {
      SharesFair(readers, c, m, upto - 1, id);
      assert readers[..upto][..upto - 1] == readers[..upto - 1];
      FairTurns(c, m, |readers|, upto - 1);
      Distribute(Slots(readers[..upto - 1], id), 1, q);
      Distribute(Slots(readers[..upto - 1], id), 1, q + extra);
    }
  }

  lemma {:induction false} ReceivedMore(a: seq<(Id, Payload)>, b: seq<(Id, Payload)>, id: Id)
    ensures Received(a + b, id) == Received(a, id) + Received(b, id)
  {
    if b == [] {
      assert a + b == a;
    } else {
      ReceivedMore(a, b[..|b| - 1], id);
      assert (a + b)[..|a + b| - 1] == a + b[..|b| - 1];
    }
  }

  /** Fairness: of a batch of `m` payloads a client that holds `k` of the `n` queue slots is
      sent between `k` times `m / n` rounded down and `k` times `m / n` rounded up. */
  lemma FairShare(h: State, ch: string, ps: seq<Payload>, id: Id)
    requires Members(h) && ch in h.channels && h.channels[ch].queueReaders != [] && h.channels[ch].cursor + |ps| < U64
    ensures
      var readers := h.channels[ch].queueReaders;
      var got := Received(Queued(DispatchAll(h, ch, ps).log, ch), id) - Received(Queued(h.log, ch), id);
      var q, extra, k := |ps| / |readers|, if |ps| % |readers| == 0 then 0 else 1, Slots(readers, id);
      k * q <= got <= k * (q + extra)
  {
    hide Members, Queued, Received, DispatchAll, Rota, Shares;
    var c := h.channels[ch];
    BatchQueues(h, ch, ps);
    ReceivedMore(Queued(h.log, ch), Rota(c, ps), id);
    ReceivedShares(c, ps, id);
    SharesFair(c.queueReaders, c.cursor, |ps|, |c.queueReaders|, id);
    assert c.queueReaders[..|c.queueReaders|] == c.queueReaders;
  }
}
