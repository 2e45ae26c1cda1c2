/** Which bytes are which message and which value. */
module WireFormat {
  import opened Bytes
  import opened Syntax
  import opened Encoding
  import opened Hub
  import opened Protocol
  import opened Payloads
  import opened Words

  /** A block is its length in 32 bits and its bytes. */
  predicate BlockAt(s: seq<Byte>, at: nat, b: seq<Byte>) {
    at + 4 + |b| <= |s| && U32At(s, at) == |b| && s[at + 4..at + 4 + |b|] == b
  }

  /** A text is a block whose bytes are its characters. */
  predicate TextAt(s: seq<Byte>, at: nat, t: string) {
    at + 4 + |t| <= |s| && U32At(s, at) == |t| && forall i | 0 <= i < |t| :: t[i] as int == Octet(s, at + 4 + i)
  }

  lemma BlockExactly(s: seq<Byte>, at: nat, b: seq<Byte>)
    ensures BlockAt(s, at, b) <==> ReadBlock(s, at).Got? && ReadBlock(s, at).value == b
    ensures BlockAt(s, at, b) ==> ReadBlock(s, at).next == at + 4 + |b|
  {
    hide U32At;
    Read32(s, at);
  }

  lemma TextExactly(s: seq<Byte>, at: nat, t: string)
    ensures TextAt(s, at, t) <==> ReadString(s, at).Got? && ReadString(s, at).value == t
    ensures TextAt(s, at, t) ==> ReadString(s, at).next == at + 4 + |t|
  {
    hide U32At;
    Read32(s, at);
    if at + 4 <= |s| && at + 4 + U32At(s, at) <= |s| {
      var b := s[at + 4..at + 4 + U32At(s, at)];
      assert forall i | 0 <= i < |b| :: b[i] == Octet(s, at + 4 + i) && ToText(b)[i] as int == b[i];
      if TextAt(s, at, t) {
        assert ToText(b) == t;
      }
    }
  }

  // ---- messages ----

  /** Modes are numbered; the number of a mode nobody knows is kept. */
  predicate ModeAt(s: seq<Byte>, at: nat, m: Mode) {
    && at < |s|
    && match m
       case Writer => s[at] == 0
       case QueueIn => s[at] == 1
       case BroadcastIn => s[at] == 2
       case ChannelPeer => s[at] == 3
       case OtherMode(b) => s[at] == b && b > 3
  }

  /** The bytes begin with this message. What follows its last field does not matter, and a
      client that does not say its kind is of kind 0. */
  predicate MessageAt(s: seq<Byte>, m: Message) {
    && s != []
    && match m
       case HelloMsg(pid, kind) =>
         s[0] == 1 && |s| >= 9 && U64At(s, 1) == pid && kind == (if |s| == 9 then 0 else s[9])
       case ByeMsg => s[0] == 2
       case AttachMsg(ch, mode) => s[0] == 3 && TextAt(s, 1, ch) && ModeAt(s, 5 + |ch|, mode)
       case DetachMsg(ch, mode) => s[0] == 4 && TextAt(s, 1, ch) && ModeAt(s, 5 + |ch|, mode)
       case PublishMsg(ch, p) => s[0] == 5 && TextAt(s, 1, ch) && BlockAt(s, 5 + |ch|, p)
       case DeliverMsg(ch, mode, p) =>
         s[0] == 6 && TextAt(s, 1, ch) && ModeAt(s, 5 + |ch|, mode) && BlockAt(s, 6 + |ch|, p)
       case AckMsg => s[0] == 7
       case ErrorMsg(text) => s[0] == 8 && TextAt(s, 1, text)
       case OfferMsg(ch) => s[0] == 9 && TextAt(s, 1, ch)
       case AcceptMsg(ch) => s[0] == 10 && TextAt(s, 1, ch)
       case BusyMsg(ch) => s[0] == 11 && TextAt(s, 1, ch)
       case ReadyMsg(ch) => s[0] == 12 && TextAt(s, 1, ch)
       case DataAckMsg(ch) => s[0] == 13 && TextAt(s, 1, ch)
       case UnknownMsg(op) => s[0] == op && (op == 0 || op > 13)
  }

  lemma ModeExactly(s: seq<Byte>, at: nat, m: Mode)
    ensures ModeAt(s, at, m) <==> at < |s| && ByteMode(s[at]) == m
  {
  }

  lemma PublishExactly(s: seq<Byte>, ch: string, p: Payload)
    ensures Protocol.Decode(s) == Some(PublishMsg(ch, p)) <==> MessageAt(s, PublishMsg(ch, p))
  {
    hide ReadString, ReadBlock, TextAt, BlockAt, ModeAt, ByteMode, ReadLE, U64At;
    TextExactly(s, 1, ch);
    BlockExactly(s, 5 + |ch|, p);
  }

  lemma DeliverExactly(s: seq<Byte>, ch: string, mode: Mode, p: Payload)
    ensures Protocol.Decode(s) == Some(DeliverMsg(ch, mode, p)) <==> MessageAt(s, DeliverMsg(ch, mode, p))
  {
    hide ReadString, ReadBlock, TextAt, BlockAt, ModeAt, ByteMode, ReadLE, U64At;
    TextExactly(s, 1, ch);
    ModeExactly(s, 5 + |ch|, mode);
    BlockExactly(s, 6 + |ch|, p);
  }

  lemma AttachExactly(s: seq<Byte>, m: Message)
    requires m.AttachMsg? || m.DetachMsg?
    ensures Protocol.Decode(s) == Some(m) <==> MessageAt(s, m)
  {
    hide ReadString, ReadBlock, TextAt, BlockAt, ModeAt, ByteMode, ReadLE, U64At;
    TextExactly(s, 1, m.channel);
    ModeExactly(s, 5 + |m.channel|, m.mode);
  }

  lemma OneTextExactly(s: seq<Byte>, m: Message, t: string)
    requires m in {ErrorMsg(t), OfferMsg(t), AcceptMsg(t), BusyMsg(t), ReadyMsg(t), DataAckMsg(t)}
    ensures Protocol.Decode(s) == Some(m) <==> MessageAt(s, m)
  {
    hide ReadString, ReadBlock, TextAt, BlockAt, ModeAt, ByteMode, ReadLE, U64At;
    TextExactly(s, 1, t);
  }

  /** Decoding finds the message exactly if the bytes begin with it. */
  lemma MessageExactly(s: seq<Byte>, m: Message)
    ensures Protocol.Decode(s) == Some(m) <==> MessageAt(s, m)
  {
    hide MessageAt, Protocol.Decode;
    match m
    case AttachMsg(_, _) => AttachExactly(s, m);
    case DetachMsg(_, _) => AttachExactly(s, m);
    case PublishMsg(ch, p) => PublishExactly(s, ch, p);
    case DeliverMsg(ch, mode, p) => DeliverExactly(s, ch, mode, p);
    case ErrorMsg(t) => OneTextExactly(s, m, t);
    case OfferMsg(t) => OneTextExactly(s, m, t);
    case AcceptMsg(t) => OneTextExactly(s, m, t);
    case BusyMsg(t) => OneTextExactly(s, m, t);
    case ReadyMsg(t) => OneTextExactly(s, m, t);
    case DataAckMsg(t) => OneTextExactly(s, m, t);
    case HelloMsg(_, _) => TextlessExactly(s, m);
    case ByeMsg => TextlessExactly(s, m);
    case AckMsg => TextlessExactly(s, m);
    case UnknownMsg(_) => TextlessExactly(s, m);
  }

  lemma TextlessExactly(s: seq<Byte>, m: Message)
    requires m.HelloMsg? || m.ByeMsg? || m.AckMsg? || m.UnknownMsg?
    ensures Protocol.Decode(s) == Some(m) <==> MessageAt(s, m)
  {
    hide ReadString, ReadBlock, TextAt, BlockAt, ModeAt, ByteMode, ReadLE, U64At;
    Read64(s, 1);
  }

  // ---- values ----

  /** The bytes from `at` up to `n` are this value. Of a boolean every byte but 0 is true, and an
      exception of any kind is a plain error. */
  ghost predicate ValueAt(s: seq<Byte>, at: nat, v: Item, n: nat)
    decreases v, 1
  {
    && at < |s|
    && match v
       case NullItem => s[at] == 0 && n == at + 1
       case BoolItem(b) => s[at] == 1 && n == at + 2 <= |s| && b == (s[at + 1] != 0)
       case IntItem(i) =>
         s[at] == 2 && n == at + 9 <= |s| && IsI64(i)
           && U64At(s, at + 1) == (if i < 0 then 0x1_0000_0000_0000_0000 + i else i)
       case FloatItem(bits) => s[at] == 3 && n == at + 9 <= |s| && U64At(s, at + 1) == bits
       case CharItem(c) => s[at] == 4 && n == at + 2 <= |s| && s[at + 1] == c
       case StrItem(t) => s[at] == 5 && TextAt(s, at + 1, t) && n == at + 5 + |t|
       case RegexItem(t) => s[at] == 6 && TextAt(s, at + 1, t) && n == at + 5 + |t|
       case EnumItem(t, m) =>
         s[at] == 7 && TextAt(s, at + 1, t) && TextAt(s, at + 5 + |t|, m) && n == at + 9 + |t| + |m|
       case ArrayItem(vs) => s[at] == 8 && at + 5 <= |s| && U32At(s, at + 1) == |vs| && ItemsAt(s, at + 5, vs, n)
       case TupleItem(vs) => s[at] == 9 && at + 5 <= |s| && U32At(s, at + 1) == |vs| && ItemsAt(s, at + 5, vs, n)
       case ObjectItem(t, fs) =>
         && s[at] == 10 && TextAt(s, at + 1, t) && at + 9 + |t| <= |s| && U32At(s, at + 5 + |t|) == |fs|
         && FieldsAt(s, at + 9 + |t|, fs, n)
       case ExnItem(kind, m) => s[at] == 11 && kind == Error && TextAt(s, at + 1, m) && n == at + 5 + |m|
       case HandleItem => false
  }

  ghost predicate ItemsAt(s: seq<Byte>, at: nat, vs: seq<Item>, n: nat)
    decreases vs, 0
  {
    if vs == [] then n == at
    else exists mid: nat :: ValueAt(s, at, vs[0], mid) && ItemsAt(s, mid, vs[1..], n)
  }

  lemma ItemsGoOn(s: seq<Byte>, at: nat, vs: seq<Item>, n: nat) returns (mid: nat)
    requires vs != [] && ItemsAt(s, at, vs, n)
    ensures ValueAt(s, at, vs[0], mid) && ItemsAt(s, mid, vs[1..], n)
  {
    mid :| ValueAt(s, at, vs[0], mid) && ItemsAt(s, mid, vs[1..], n);
  }

  ghost predicate FieldsAt(s: seq<Byte>, at: nat, fs: seq<Field>, n: nat)
    decreases fs, 0
  {
    if fs == [] then n == at
    else TextAt(s, at, fs[0].name) && exists mid: nat ::
        ValueAt(s, at + 4 + |fs[0].name|, fs[0].item, mid) && FieldsAt(s, mid, fs[1..], n)
  }

  lemma FieldsGoOn(s: seq<Byte>, at: nat, fs: seq<Field>, n: nat) returns (mid: nat)
    requires fs != [] && FieldsAt(s, at, fs, n)
    ensures ValueAt(s, at + 4 + |fs[0].name|, fs[0].item, mid) && FieldsAt(s, mid, fs[1..], n)
  {
    mid :| ValueAt(s, at + 4 + |fs[0].name|, fs[0].item, mid) && FieldsAt(s, mid, fs[1..], n);
  }

  lemma ScalarExactly(s: seq<Byte>, p: nat, v: Item, n: nat)
    requires v.NullItem? || v.BoolItem? || v.IntItem? || v.FloatItem? || v.CharItem? || v.HandleItem?
    ensures ReadItem(s, p) == Got(v, n) <==> ValueAt(s, p, v, n)
  {
    hide U64At, ReadLE, ReadString, ReadItems, ReadFields;
    Read64(s, p + 1);
  }

  lemma TextsExactly(s: seq<Byte>, p: nat, v: Item, n: nat)
    requires v.StrItem? || v.RegexItem? || v.EnumItem? || v.ExnItem?
    ensures ReadItem(s, p) == Got(v, n) <==> ValueAt(s, p, v, n)
  {
    hide TextAt, ReadLE, ReadString, ReadItems, ReadFields;
    match v
    case StrItem(t) => TextExactly(s, p + 1, t);
    case RegexItem(t) => TextExactly(s, p + 1, t);
    case ExnItem(_, t) => TextExactly(s, p + 1, t);
    case EnumItem(t, m) => TextExactly(s, p + 1, t); TextExactly(s, p + 5 + |t|, m);
  }

  /** Reading finds the value exactly if the bytes are that value. */
  lemma {:induction false} ValueExactly(s: seq<Byte>, p: nat, v: Item, n: nat)
    ensures ReadItem(s, p) == Got(v, n) <==> ValueAt(s, p, v, n)
    decreases v, 1
  {
    match v
    case ArrayItem(vs) => SequenceExactly(s, p, v, vs, n);
    case TupleItem(vs) => SequenceExactly(s, p, v, vs, n);
    case ObjectItem(_, _) => ObjectExactly(s, p, v, n);
    case StrItem(_) => TextsExactly(s, p, v, n);
    case RegexItem(_) => TextsExactly(s, p, v, n);
    case EnumItem(_, _) => TextsExactly(s, p, v, n);
    case ExnItem(_, _) => TextsExactly(s, p, v, n);
    case _ => ScalarExactly(s, p, v, n);
  }

  lemma {:induction false} ItemsCounted(s: seq<Byte>, p: nat, n: nat)
    requires p <= |s|
    ensures ReadItems(s, p, n).Got? ==> |ReadItems(s, p, n).value| == n
    decreases n
  {
    hide ReadItem;
    if n > 0 && ReadItem(s, p).Got? {
      ItemsCounted(s, ReadItem(s, p).next, n - 1);
    }
  }

  lemma {:induction false} FieldsCounted(s: seq<Byte>, p: nat, n: nat)
    requires p <= |s|
    ensures ReadFields(s, p, n).Got? ==> |ReadFields(s, p, n).value| == n
    decreases n
  {
    hide ReadItem, ReadString;
    if n > 0 && ReadString(s, p).Got? && ReadItem(s, ReadString(s, p).next).Got? {
      FieldsCounted(s, ReadItem(s, ReadString(s, p).next).next, n - 1);
    }
  }

  lemma {:induction false} SequenceExactly(s: seq<Byte>, p: nat, v: Item, vs: seq<Item>, n: nat)
    requires v == ArrayItem(vs) || v == TupleItem(vs)
    ensures ReadItem(s, p) == Got(v, n) <==> ValueAt(s, p, v, n)
    decreases vs, 1
  {
    hide U32At, ReadLE, ReadString, ReadItems, ReadFields, ItemsAt;
    Read32(s, p + 1);
    if p + 5 <= |s| {
      ItemsCounted(s, p + 5, U32At(s, p + 1));
      ItemsExactly(s, p + 5, vs, n);
    }
  }

  lemma {:induction false} ItemsExactly(s: seq<Byte>, p: nat, vs: seq<Item>, n: nat)
    requires p <= |s|
    ensures ReadItems(s, p, |vs|) == Got(vs, n) <==> ItemsAt(s, p, vs, n)
    decreases vs, 0
  {
    hide ReadItem;
    if vs != [] {
      if ReadItem(s, p).Got? {
        var mid := ReadItem(s, p).next;
        ValueExactly(s, p, vs[0], mid);
        ItemsExactly(s, mid, vs[1..], n);
        assert vs == [vs[0]] + vs[1..];
      }
      if ItemsAt(s, p, vs, n) {
        var mid := ItemsGoOn(s, p, vs, n);
        ValueExactly(s, p, vs[0], mid);
      }
    }
  }

  lemma {:induction false} ObjectExactly(s: seq<Byte>, p: nat, v: Item, n: nat)
    requires v.ObjectItem?
    ensures ReadItem(s, p) == Got(v, n) <==> ValueAt(s, p, v, n)
    decreases v, 0
  {
    hide U32At, ReadLE, ReadString, ReadItems, ReadFields, FieldsAt, TextAt;
    var at := p + 5 + |v.typeName|;
    TextExactly(s, p + 1, v.typeName);
    Read32(s, at);
    if at + 4 <= |s| {
      FieldsCounted(s, at + 4, U32At(s, at));
      FieldsExactly(s, at + 4, v.fields, n);
    }
  }

  lemma {:induction false} FieldsExactly(s: seq<Byte>, p: nat, fs: seq<Field>, n: nat)
    requires p <= |s|
    ensures ReadFields(s, p, |fs|) == Got(fs, n) <==> FieldsAt(s, p, fs, n)
    decreases fs, 0
  {
    hide ReadItem, TextAt, ReadString;
    if fs != [] {
      var q := p + 4 + |fs[0].name|;
      TextExactly(s, p, fs[0].name);
      if ReadItem(s, q).Got? {
        var mid := ReadItem(s, q).next;
        ValueExactly(s, q, fs[0].item, mid);
        FieldsExactly(s, mid, fs[1..], n);
        assert fs == [fs[0]] + fs[1..];
      }
      if FieldsAt(s, p, fs, n) {
        var mid := FieldsGoOn(s, p, fs, n);
        ValueExactly(s, q, fs[0].item, mid);
      }
    }
  }

  // ---- what is sent ----

  /** So what is sent, in frames, is what the receiver is to read. */
  lemma MessageSent(m: Message)
    requires Fits(m)
    ensures MessageAt(Encoded(m), m)
  {
    hide Protocol.Decode, MessageAt, Encoded, Fits;
    MessageRoundTrip(m, []);
    assert Encoded(m) + [] == Encoded(m);
    MessageExactly(Encoded(m), m);
  }

  lemma FrameSent(body: seq<Byte>)
    requires |body| < U32
    ensures BlockAt(Framed(body), 0, body) && |Framed(body)| == 4 + |body|
  {
    hide ReadBlock, BlockAt;
    CarriesSlice(Framed(body), 0, Sized(body));
    BlockBack(Framed(body), 0, body);
    BlockExactly(Framed(body), 0, body);
  }

  lemma ValueSent(v: Item)
    requires Typed(v) && Sendable(v)
    ensures ValueAt(Enc(v), 0, Arriving(v), |Enc(v)|)
  {
    hide ReadItem, ValueAt, Enc, Typed, Sendable, Arriving;
    ValueRoundTrip(v, []);
    assert Enc(v) + [] == Enc(v);
    ValueExactly(Enc(v), 0, Arriving(v), |Enc(v)|);
  }

  // ---- what can be sent ----

  /** `w` is `v` or somewhere inside it. */
  ghost predicate Within(w: Item, v: Item)
    decreases v
  {
    w == v
    || match v
       case ArrayItem(vs) => exists i | 0 <= i < |vs| :: Within(w, vs[i])
       case TupleItem(vs) => exists i | 0 <= i < |vs| :: Within(w, vs[i])
       case ObjectItem(_, fs) => exists i | 0 <= i < |fs| :: Within(w, fs[i].item)
       case _ => false
  }

  /** Not a map, handle or function, and every length of its own fits 32 bits. */
  predicate Portable(v: Item) {
    match v
    case HandleItem => false
    case StrItem(t) => |t| < 0x1_0000_0000
    case RegexItem(t) => |t| < 0x1_0000_0000
    case EnumItem(t, m) => |t| < 0x1_0000_0000 && |m| < 0x1_0000_0000
    case ExnItem(_, m) => |m| < 0x1_0000_0000
    case ArrayItem(vs) => |vs| < 0x1_0000_0000
    case TupleItem(vs) => |vs| < 0x1_0000_0000
    case ObjectItem(t, fs) =>
      |t| < 0x1_0000_0000 && |fs| < 0x1_0000_0000 && forall f | f in fs :: |f.name| < 0x1_0000_0000
    case _ => true
  }

  ghost predicate AllPortable(v: Item) {
    forall w | Within(w, v) :: Portable(w)
  }

  /** A value can be sent exactly if everything inside it can. */
  lemma {:induction false} SendableExactly(v: Item)
    ensures Sendable(v) <==> AllPortable(v)
    decreases v, 1
  {
    hide Within, Sendable, AllPortable;
    match v
    case ArrayItem(vs) => ElementsSendable(vs); PartsOf(v);
    case TupleItem(vs) => ElementsSendable(vs); PartsOf(v);
    case ObjectItem(_, fs) => MembersSendable(fs); PartsOf(v);
    case _ => PartsOf(v);
  }

  lemma {:induction false} ElementsSendable(vs: seq<Item>)
    ensures AllSendable(vs) <==> forall i | 0 <= i < |vs| :: AllPortable(vs[i])
    decreases vs, 0
  {
    hide AllPortable, Sendable;
    if vs != [] {
      SendableExactly(vs[0]);
      ElementsSendable(vs[1..]);
      assert forall i | 0 < i < |vs| :: vs[i] == vs[1..][i - 1];
    }
  }

  lemma {:induction false} MembersSendable(fs: seq<Field>)
    ensures FieldsSendable(fs)
      <==> (forall f | f in fs :: |f.name| < 0x1_0000_0000) && forall i | 0 <= i < |fs| :: AllPortable(fs[i].item)
    decreases fs, 0
  {
    hide AllPortable, Sendable;
    if fs != [] {
      SendableExactly(fs[0].item);
      MembersSendable(fs[1..]);
      assert forall i | 0 < i < |fs| :: fs[i] == fs[1..][i - 1];
      assert forall f :: f in fs <==> f == fs[0] || f in fs[1..];
    }
  }

  /** All parts of a value are itself and the parts of its elements. */
  lemma PartsOf(v: Item)
    ensures AllPortable(v)
      <==> Portable(v) && match v
                          case ArrayItem(vs) => forall i | 0 <= i < |vs| :: AllPortable(vs[i])
                          case TupleItem(vs) => forall i | 0 <= i < |vs| :: AllPortable(vs[i])
                          case ObjectItem(_, fs) => forall i | 0 <= i < |fs| :: AllPortable(fs[i].item)
                          case _ => true
    ensures v.ArrayItem? || v.TupleItem? ==> (Sendable(v) <==> Portable(v) && AllSendable(v.items))
    ensures
      v.ObjectItem?
      ==> (Sendable(v) <==> |v.typeName| < 0x1_0000_0000 && |v.fields| < 0x1_0000_0000 && FieldsSendable(v.fields))
    ensures !v.ArrayItem? && !v.TupleItem? && !v.ObjectItem? ==> (Sendable(v) <==> Portable(v))
  {
  }
}
