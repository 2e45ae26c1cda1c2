/** Writing and reading the hub's wire format. */
module Wire {
  import opened Bytes
  import opened Syntax
  import opened Encoding
  import opened Hub
  import opened Protocol

  /** A growing buffer. */
  class ByteWriter {
    var data: seq<Byte>

    constructor ()
      ensures data == []
    {
      data := [];
    }

    method AppendU8(value: Byte)
      modifies this
      ensures data == old(data) + [value]
    {
      data := data + [value];
    }

    /** The low `width` bytes of a word, least significant first. */
    method AppendWord(word: nat, width: nat)
      modifies this
      ensures data == old(data) + LE(word, width)
    {
      var rest := word;
      ghost var start := data;
      for i := 0 to width
        invariant start + LE(word, width) == data + LE(rest, width - i)
      {
        AppendU8(rest % 256);
        rest := rest / 256;
      }
      assert data + LE(rest, 0) == data;
    }

    method AppendText(text: string)
      modifies this
      ensures data == old(data) + Text(text)
    {
      AppendWord(|text|, 4);
      ghost var start := data;
      for i := 0 to |text|
        invariant data == start + ToBytes(text)[..i]
      {
        AppendU8((text[i] as int % 256) as Byte);
        assert ToBytes(text)[..i + 1] == ToBytes(text)[..i] + [ToBytes(text)[i]];
      }
      assert ToBytes(text)[..|text|] == ToBytes(text);
    }

    method AppendBlock(bytes: seq<Byte>)
      modifies this
      ensures data == old(data) + Sized(bytes)
    {
      AppendWord(|bytes|, 4);
      data := data + bytes;
    }
  }

  lemma Regrouped(a: seq<Byte>, b: seq<Byte>, c: seq<Byte>)
    ensures a + b + c == a + (b + c)
  {
  }

  lemma InOrder(a: seq<Byte>, b: seq<Byte>, c: seq<Byte>, d: seq<Byte>)
    ensures a + b + c + d == a + (b + (c + d))
  {
  }

  method EncodeFrame(body: seq<Byte>) returns (frame: seq<Byte>)
    ensures frame == Framed(body)
  {
    var out := new ByteWriter();
    out.AppendBlock(body);
    frame := out.data;
  }

  method EncodeHello(pid: nat, kind: Byte) returns (frame: seq<Byte>)
    ensures frame == Framed(Encoded(HelloMsg(pid, kind)))
  {
    var body := new ByteWriter();
    body.AppendU8(1);
    assert body.data == [1];
    body.AppendWord(pid, 8);
    body.AppendU8(kind);
    Regrouped([1], LE(pid, 8), [kind]);
    frame := EncodeFrame(body.data);
  }

  method EncodeBye() returns (frame: seq<Byte>)
    ensures frame == Framed(Encoded(ByeMsg))
  {
    var body := new ByteWriter();
    body.AppendU8(2);
    assert body.data == [2];
    frame := EncodeFrame(body.data);
  }

  method EncodeAttach(ch: string, mode: Mode) returns (frame: seq<Byte>)
    ensures frame == Framed(Encoded(AttachMsg(ch, mode)))
  {
    var body := new ByteWriter();
    body.AppendU8(3);
    assert body.data == [3];
    body.AppendText(ch);
    body.AppendU8(ModeByte(mode));
    Regrouped([3], Text(ch), [ModeByte(mode)]);
    frame := EncodeFrame(body.data);
  }

  method EncodeDetach(ch: string, mode: Mode) returns (frame: seq<Byte>)
    ensures frame == Framed(Encoded(DetachMsg(ch, mode)))
  {
    var body := new ByteWriter();
    body.AppendU8(4);
    assert body.data == [4];
    body.AppendText(ch);
    body.AppendU8(ModeByte(mode));
    Regrouped([4], Text(ch), [ModeByte(mode)]);
    frame := EncodeFrame(body.data);
  }

  method EncodePublish(ch: string, payload: Payload) returns (frame: seq<Byte>)
    ensures frame == Framed(Encoded(PublishMsg(ch, payload)))
  {
    var body := new ByteWriter();
    body.AppendU8(5);
    assert body.data == [5];
    body.AppendText(ch);
    body.AppendBlock(payload);
    Regrouped([5], Text(ch), Sized(payload));
    frame := EncodeFrame(body.data);
  }

  method EncodeDeliver(ch: string, mode: Mode, payload: Payload) returns (frame: seq<Byte>)
    ensures frame == Framed(Encoded(DeliverMsg(ch, mode, payload)))
  {
    var body := new ByteWriter();
    body.AppendU8(6);
    assert body.data == [6];
    body.AppendText(ch);
    body.AppendU8(ModeByte(mode));
    body.AppendBlock(payload);
    InOrder([6], Text(ch), [ModeByte(mode)], Sized(payload));
    frame := EncodeFrame(body.data);
  }

  method EncodeAck() returns (frame: seq<Byte>)
    ensures frame == Framed(Encoded(AckMsg))
  {
    var body := new ByteWriter();
    body.AppendU8(7);
    assert body.data == [7];
    frame := EncodeFrame(body.data);
  }

  method EncodeError(text: string) returns (frame: seq<Byte>)
    ensures frame == Framed(Encoded(ErrorMsg(text)))
  {
    var body := new ByteWriter();
    body.AppendU8(8);
    assert body.data == [8];
    body.AppendText(text);
    frame := EncodeFrame(body.data);
  }

  /** An offer and the four replies to it carry a channel name and nothing else. */
  method EncodeChannelOp(m: Message, ch: string) returns (frame: seq<Byte>)
    requires m in {OfferMsg(ch), AcceptMsg(ch), BusyMsg(ch), ReadyMsg(ch), DataAckMsg(ch)}
    ensures frame == Framed(Encoded(m))
  {
    var body := new ByteWriter();
    body.AppendU8(OpOf(m));
    assert body.data == [OpOf(m)];
    body.AppendText(ch);
    frame := EncodeFrame(body.data);
  }

  /** A cursor over received bytes; `failed` is the protocol error flag. */
  class ByteReader {
    const data: seq<Byte>
    var cursor: nat
    var failed: bool

    constructor (data: seq<Byte>)
      ensures this.data == data && cursor == 0 && !failed
    {
      this.data := data;
      cursor, failed := 0, false;
    }

    /** The next `count` bytes, or a failure if there are not that many. */
    method Take(count: nat) returns (r: seq<Byte>)
      requires !failed
      modifies this
      ensures failed <==> old(cursor) + count > |data|
      ensures !failed ==> cursor == old(cursor) + count && r == data[old(cursor)..cursor]
    {
      if cursor + count > |data| {
        failed := true;
        return [];
      }
      r := data[cursor..cursor + count];
      cursor := cursor + count;
    }

    method U8() returns (b: Byte)
      requires !failed
      modifies this
      ensures match ReadU8(data, old(cursor))
              case Truncated => failed
              case Got(v, next) => !failed && b == v && cursor == next
    {
      var bytes := Take(1);
      b := if failed then 0 else bytes[0];
    }

    method Word(width: nat) returns (n: nat)
      requires !failed
      modifies this
      ensures match ReadLE(data, old(cursor), width)
              case Truncated => failed
              case Got(v, next) => !failed && n == v && cursor == next
    {
      var bytes := Take(width);
      n := if failed then 0 else FromLE(bytes);
    }

    method BlockBytes() returns (bytes: seq<Byte>)
      requires !failed
      modifies this
      ensures match ReadBlock(data, old(cursor))
              case Truncated => failed
              case Got(v, next) => !failed && bytes == v && cursor == next
    {
      var length := Word(4);
      if failed {
        return [];
      }
      bytes := Take(length);
    }

    method Text() returns (text: string)
      requires !failed
      modifies this
      ensures match ReadString(data, old(cursor))
              case Truncated => failed
              case Got(v, next) => !failed && text == v && cursor == next
    {
      var bytes := BlockBytes();
      text := if failed then "" else ToText(bytes);
    }
  }

  /** The message a frame body means, or none if reading it failed. */
  method DecodeMessage(body: seq<Byte>) returns (r: Option<Message>)
    ensures r == Protocol.Decode(body)
  {
    var input := new ByteReader(body);
    var op := input.U8();
    if input.failed {
      return None;
    }
    if op == 1 {
      r := DecodeGreeting(input);
    } else if op == 2 {
      r := Some(ByeMsg);
    } else if op == 7 {
      r := Some(AckMsg);
    } else if 3 <= op <= 13 {
      var text := input.Text();
      if input.failed {
        return None;
      }
      r := DecodeFields(input, op, text);
    } else {
      r := Some(UnknownMsg(op));
    }
  }

  method DecodeGreeting(input: ByteReader) returns (r: Option<Message>)
    requires !input.failed
    modifies input
    ensures r == DecodeHello(input.data, old(input.cursor))
  {
    var pid := input.Word(8);
    if input.failed {
      return None;
    }
    var kind: Byte := 0;
    if input.cursor < |input.data| {
      kind := input.U8();
    }
    r := Some(HelloMsg(pid, kind));
  }

  method DecodeFields(input: ByteReader, op: Byte, text: string) returns (r: Option<Message>)
    requires !input.failed && input.cursor <= |input.data|
    modifies input
    ensures r == DecodeRest(input.data, op, text, old(input.cursor))
  {
    if op == 3 || op == 4 {
      var b := input.U8();
      r := if input.failed then None
           else Some(if op == 3 then AttachMsg(text, ByteMode(b)) else DetachMsg(text, ByteMode(b)));
    } else if op == 5 {
      var payload := input.BlockBytes();
      r := if input.failed then None else Some(PublishMsg(text, payload));
    } else if op == 6 {
      var b := input.U8();
      if input.failed {
        return None;
      }
      var payload := input.BlockBytes();
      r := if input.failed then None else Some(DeliverMsg(text, ByteMode(b), payload));
    } else if op == 8 {
      r := Some(ErrorMsg(text));
    } else if op == 9 {
      r := Some(OfferMsg(text));
    } else if op == 10 {
      r := Some(AcceptMsg(text));
    } else if op == 11 {
      r := Some(BusyMsg(text));
    } else if op == 12 {
      r := Some(ReadyMsg(text));
    } else {
      r := Some(DataAckMsg(text));
    }
  }
}
