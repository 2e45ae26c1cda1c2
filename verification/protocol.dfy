/** The hub's wire protocol: message bodies, frames, and their decoder. */
module Protocol {
  import opened Bytes
  import opened Syntax
  import opened Encoding
  import opened Hub

  function ModeByte(m: Mode): Byte {
    match m
    case Writer => 0 case QueueIn => 1 case BroadcastIn => 2 case ChannelPeer => 3 case OtherMode(b) => b
  }

  function ByteMode(b: Byte): Mode {
    if b == 0 then Writer else if b == 1 then QueueIn else if b == 2 then BroadcastIn
    else if b == 3 then ChannelPeer else OtherMode(b)
  }

  // ---- encoding ----

  function Sized(s: seq<Byte>): seq<Byte> {
    LE(|s|, 4) + s
  }

  function Text(s: string): seq<Byte> {
    Sized(ToBytes(s))
  }

  function OpOf(m: Message): Byte {
    match m
    case HelloMsg(_, _) => 1 case ByeMsg => 2 case AttachMsg(_, _) => 3 case DetachMsg(_, _) => 4
    case PublishMsg(_, _) => 5 case DeliverMsg(_, _, _) => 6 case AckMsg => 7 case ErrorMsg(_) => 8
    case OfferMsg(_) => 9 case AcceptMsg(_) => 10 case BusyMsg(_) => 11 case ReadyMsg(_) => 12
    case DataAckMsg(_) => 13 case UnknownMsg(op) => op
  }

  /** What follows the opcode byte. */
  function Fields(m: Message): seq<Byte> {
    match m
    case HelloMsg(pid, kind) => LE(pid, 8) + [kind]
    case AttachMsg(ch, mode) => Text(ch) + [ModeByte(mode)]
    case DetachMsg(ch, mode) => Text(ch) + [ModeByte(mode)]
    case PublishMsg(ch, p) => Text(ch) + Sized(p)
    case DeliverMsg(ch, mode, p) => Text(ch) + ([ModeByte(mode)] + Sized(p))
    case ErrorMsg(text) => Text(text)
    case OfferMsg(ch) => Text(ch)
    case AcceptMsg(ch) => Text(ch)
    case BusyMsg(ch) => Text(ch)
    case ReadyMsg(ch) => Text(ch)
    case DataAckMsg(ch) => Text(ch)
    case _ => []
  }

  function Encoded(m: Message): seq<Byte> {
    [OpOf(m)] + Fields(m)
  }

  /** A frame: the body behind its length. */
  function Framed(body: seq<Byte>): seq<Byte> {
    Sized(body)
  }

  // ---- decoding ----

  function ReadBlock(s: seq<Byte>, p: nat): (r: Read<seq<Byte>>)
    ensures r.Got? ==> r.next <= |s|
  {
    match ReadLE(s, p, 4)
    case Truncated => Truncated
    case Got(n, q) => if q + n <= |s| then Got(s[q..q + n], q + n) else Truncated
  }

  function ReadString(s: seq<Byte>, p: nat): (r: Read<string>)
    ensures r.Got? ==> r.next <= |s|
  {
    match ReadBlock(s, p)
    case Truncated => Truncated
    case Got(b, q) => Got(ToText(b), q)
  }

  /** The message a body means, or none if it is truncated. Bytes behind the last field
      are ignored, and so is everything behind an opcode nobody knows. */
  function Decode(s: seq<Byte>): Option<Message> {
    match ReadU8(s, 0)
    case Truncated => None
    case Got(op, p) =>
      if op == 1 then DecodeHello(s, p)
      else if op == 2 then Some(ByeMsg)
      else if op == 7 then Some(AckMsg)
      else if 3 <= op <= 13 then
        match ReadString(s, p)
        case Truncated => None
        case Got(text, q) => DecodeRest(s, op, text, q)
      else Some(UnknownMsg(op))
  }

  /** The client kind is absent in old clients. */
  function DecodeHello(s: seq<Byte>, p: nat): Option<Message> {
    match ReadLE(s, p, 8)
    case Truncated => None
    case Got(pid, q) => Some(HelloMsg(pid, if q < |s| then s[q] else 0))
  }

  function DecodeRest(s: seq<Byte>, op: Byte, text: string, p: nat): Option<Message>
    requires p <= |s|
  {
    if op == 3 || op == 4 then
      match ReadU8(s, p)
      case Truncated => None
      case Got(b, _) => Some(if op == 3 then AttachMsg(text, ByteMode(b)) else DetachMsg(text, ByteMode(b)))
    else if op == 5 then
      match ReadBlock(s, p)
      case Truncated => None
      case Got(payload, _) => Some(PublishMsg(text, payload))
    else if op == 6 then
      match ReadU8(s, p)
      case Truncated => None
      case Got(b, q) =>
        (match ReadBlock(s, q)
         case Truncated => None
         case Got(payload, _) => Some(DeliverMsg(text, ByteMode(b), payload)))
    else if op == 8 then Some(ErrorMsg(text))
    else if op == 9 then Some(OfferMsg(text))
    else if op == 10 then Some(AcceptMsg(text))
    else if op == 11 then Some(BusyMsg(text))
    else if op == 12 then Some(ReadyMsg(text))
    else Some(DataAckMsg(text))
  }

  // ---- round trip ----

  predicate ModeFits(m: Mode) {
    m.OtherMode? ==> m.code > 3
  }

  predicate Fits(m: Message) {
    match m
    case HelloMsg(pid, _) => pid < U64
    case AttachMsg(ch, mode) => TextFits(ch) && ModeFits(mode)
    case DetachMsg(ch, mode) => TextFits(ch) && ModeFits(mode)
    case PublishMsg(ch, p) => TextFits(ch) && |p| < U32
    case DeliverMsg(ch, mode, p) => TextFits(ch) && ModeFits(mode) && |p| < U32
    case ErrorMsg(text) => TextFits(text)
    case OfferMsg(ch) => TextFits(ch)
    case AcceptMsg(ch) => TextFits(ch)
    case BusyMsg(ch) => TextFits(ch)
    case ReadyMsg(ch) => TextFits(ch)
    case DataAckMsg(ch) => TextFits(ch)
    case UnknownMsg(op) => op == 0 || op > 13
    case _ => true
  }

  lemma BlockBack(s: seq<Byte>, p: nat, b: seq<Byte>)
    requires Carries(s, p, Sized(b)) && |b| < U32
    ensures ReadBlock(s, p) == Got(b, p + |Sized(b)|) && |Sized(b)| == 4 + |b|
  {
    CarriesParts(s, p, LE(|b|, 4), b);
    ReadBackWord(s, p, |b|);
    CarriesSlice(s, p + 4, b);
  }

  lemma TextBack(s: seq<Byte>, p: nat, t: string)
    requires Carries(s, p, Text(t)) && TextFits(t)
    ensures ReadString(s, p) == Got(t, p + |Text(t)|)
  {
    BlockBack(s, p, ToBytes(t));
    TextRoundTrip(t);
  }

  /** A text field and what comes behind it. */
  lemma TextThen(s: seq<Byte>, p: nat, t: string, rest: seq<Byte>)
    requires Carries(s, p, Text(t) + rest) && TextFits(t)
    ensures ReadString(s, p) == Got(t, p + |Text(t)|) && Carries(s, p + |Text(t)|, rest)
  {
    CarriesParts(s, p, Text(t), rest);
    TextBack(s, p, t);
  }

  lemma HelloBack(s: seq<Byte>, p: nat, pid: nat, kind: Byte)
    requires Carries(s, p, LE(pid, 8) + [kind]) && pid < U64
    ensures DecodeHello(s, p) == Some(HelloMsg(pid, kind))
  {
    CarriesParts(s, p, LE(pid, 8), [kind]);
    ReadBackLong(s, p, pid);
  }

  lemma DeliverBack(s: seq<Byte>, p: nat, text: string, mode: Mode, payload: Payload)
    requires p <= |s| && Carries(s, p, [ModeByte(mode)] + Sized(payload)) && ModeFits(mode) && |payload| < U32
    ensures DecodeRest(s, 6, text, p) == Some(DeliverMsg(text, mode, payload))
  {
    CarriesTagged(s, p, ModeByte(mode), Sized(payload));
    BlockBack(s, p + 1, payload);
  }

  /** Messages that carry one text and nothing else. */
  lemma TextMessageBack(s: seq<Byte>, m: Message, t: string)
    requires Fits(m) && s != [] && s[0] == OpOf(m) && Fields(m) == Text(t) && TextFits(t) && Carries(s, 1, Text(t))
    requires m in {ErrorMsg(t), OfferMsg(t), AcceptMsg(t), BusyMsg(t), ReadyMsg(t), DataAckMsg(t)}
    ensures Decode(s) == Some(m)
  {
    TextBack(s, 1, t);
  }

  lemma AttachBack(s: seq<Byte>, op: Byte, ch: string, mode: Mode)
    requires (op == 3 || op == 4) && s != [] && s[0] == op && Carries(s, 1, Text(ch) + [ModeByte(mode)])
    requires TextFits(ch) && ModeFits(mode)
    ensures Decode(s) == Some(if op == 3 then AttachMsg(ch, mode) else DetachMsg(ch, mode))
  {
    TextThen(s, 1, ch, [ModeByte(mode)]);
  }

  lemma PublishBack(s: seq<Byte>, ch: string, payload: Payload)
    requires s != [] && s[0] == 5 && Carries(s, 1, Text(ch) + Sized(payload)) && TextFits(ch) && |payload| < U32
    ensures Decode(s) == Some(PublishMsg(ch, payload))
  {
    TextThen(s, 1, ch, Sized(payload));
    BlockBack(s, 1 + |Text(ch)|, payload);
  }

  lemma DeliverMessageBack(s: seq<Byte>, ch: string, mode: Mode, payload: Payload)
    requires s != [] && s[0] == 6 && Carries(s, 1, Text(ch) + ([ModeByte(mode)] + Sized(payload)))
    requires TextFits(ch) && ModeFits(mode) && |payload| < U32
    ensures Decode(s) == Some(DeliverMsg(ch, mode, payload))
  {
    TextThen(s, 1, ch, [ModeByte(mode)] + Sized(payload));
    DeliverBack(s, 1 + |Text(ch)|, ch, mode, payload);
  }

  /** Decoding inverts every encoder, whatever comes behind the body. */
  lemma MessageRoundTrip(m: Message, rest: seq<Byte>)
    requires Fits(m)
    ensures Decode(Encoded(m) + rest) == Some(m)
  {
    var s := Encoded(m) + rest;
    CarriesSlice(s, 0, Encoded(m));
    assert s[0..|Encoded(m)|] == Encoded(m);
    CarriesTagged(s, 0, OpOf(m), Fields(m));
    match m
    case HelloMsg(pid, kind) => HelloBack(s, 1, pid, kind);
    case AttachMsg(ch, mode) => AttachBack(s, 3, ch, mode);
    case DetachMsg(ch, mode) => AttachBack(s, 4, ch, mode);
    case PublishMsg(ch, p) => PublishBack(s, ch, p);
    case DeliverMsg(ch, mode, p) => DeliverMessageBack(s, ch, mode, p);
    case ErrorMsg(t) => TextMessageBack(s, m, t);
    case OfferMsg(t) => TextMessageBack(s, m, t);
    case AcceptMsg(t) => TextMessageBack(s, m, t);
    case BusyMsg(t) => TextMessageBack(s, m, t);
    case ReadyMsg(t) => TextMessageBack(s, m, t);
    case DataAckMsg(t) => TextMessageBack(s, m, t);
    case _ =>
  }

  /** Different messages have different bodies. */
  lemma BodyInjective(m: Message, n: Message)
    requires Fits(m) && Fits(n) && Encoded(m) == Encoded(n)
    ensures m == n
  {
    MessageRoundTrip(m, []);
    MessageRoundTrip(n, []);
  }
}
