/** Values on their way through a pipe: tagged bytes, and back. */
module Payloads {
  import opened Bytes
  import opened Syntax
  import opened Encoding
  import opened Protocol
  import opened Wire

  datatype Item =
    | NullItem
    | BoolItem(flag: bool)
    | IntItem(number: int)
    | FloatItem(bits: nat)
    | CharItem(letter: Byte)
    | StrItem(text: string)
    | RegexItem(pattern: string)
    | EnumItem(typeName: string, member: string)
    | ArrayItem(items: seq<Item>)
    | TupleItem(items: seq<Item>)
    | ObjectItem(typeName: string, fields: seq<Field>)
    | ExnItem(kind: ExnKind, message: string)
    | HandleItem

  datatype Field = Field(name: string, item: Item)

  /** Values as the interpreter has them: 64-bit integers and doubles, strings of bytes. */
  predicate Typed(v: Item)
    decreases v, 1
  {
    match v
    case IntItem(n) => IsI64(n)
    case FloatItem(bits) => bits < U64
    case StrItem(t) => IsText(t)
    case RegexItem(t) => IsText(t)
    case EnumItem(t, m) => IsText(t) && IsText(m)
    case ArrayItem(vs) => AllTyped(vs)
    case TupleItem(vs) => AllTyped(vs)
    case ObjectItem(t, fs) => IsText(t) && FieldsTyped(fs)
    case ExnItem(_, m) => IsText(m)
    case _ => true
  }

  predicate AllTyped(vs: seq<Item>)
    decreases vs, 0
  {
    vs == [] || (Typed(vs[0]) && AllTyped(vs[1..]))
  }

  predicate FieldsTyped(fs: seq<Field>)
    decreases fs, 0
  {
    fs == [] || (IsText(fs[0].name) && Typed(fs[0].item) && FieldsTyped(fs[1..]))
  }

  /** What can be sent: no map, handle or function anywhere inside, and nothing of 2^32
      bytes or elements. */
  predicate Sendable(v: Item)
    decreases v, 1
  {
    match v
    case StrItem(t) => |t| < U32
    case RegexItem(t) => |t| < U32
    case EnumItem(t, m) => |t| < U32 && |m| < U32
    case ArrayItem(vs) => |vs| < U32 && AllSendable(vs)
    case TupleItem(vs) => |vs| < U32 && AllSendable(vs)
    case ObjectItem(t, fs) => |t| < U32 && |fs| < U32 && FieldsSendable(fs)
    case ExnItem(_, m) => |m| < U32
    case HandleItem => false
    case _ => true
  }

  predicate AllSendable(vs: seq<Item>)
    decreases vs, 0
  {
    vs == [] || (Sendable(vs[0]) && AllSendable(vs[1..]))
  }

  predicate FieldsSendable(fs: seq<Field>)
    decreases fs, 0
  {
    fs == [] || (|fs[0].name| < U32 && Sendable(fs[0].item) && FieldsSendable(fs[1..]))
  }

  // ---- encoding ----

  function Enc(v: Item): (r: seq<Byte>)
    requires Typed(v)
    ensures r != []
    decreases v, 1
  {
    match v
    case NullItem => [0]
    case BoolItem(b) => [1] + [if b then 1 else 0]
    case IntItem(n) => [2] + LE(ToTwos(n), 8)
    case FloatItem(bits) => [3] + LE(bits, 8)
    case CharItem(c) => [4] + [c]
    case StrItem(t) => [5] + Text(t)
    case RegexItem(t) => [6] + Text(t)
    case EnumItem(t, m) => [7] + (Text(t) + Text(m))
    case ArrayItem(vs) => [8] + (LE(|vs|, 4) + EncAll(vs))
    case TupleItem(vs) => [9] + (LE(|vs|, 4) + EncAll(vs))
    case ObjectItem(t, fs) => [10] + (Text(t) + (LE(|fs|, 4) + EncFields(fs)))
    case ExnItem(_, m) => [11] + Text(m)
    case HandleItem => [255]
  }

  function EncAll(vs: seq<Item>): seq<Byte>
    requires AllTyped(vs)
    decreases vs, 0
  {
    if vs == [] then [] else Enc(vs[0]) + EncAll(vs[1..])
  }

  function EncFields(fs: seq<Field>): seq<Byte>
    requires FieldsTyped(fs)
    decreases fs, 0
  {
    if fs == [] then [] else Text(fs[0].name) + (Enc(fs[0].item) + EncFields(fs[1..]))
  }

  // ---- decoding ----

  function ReadItem(s: seq<Byte>, p: nat): (r: Read<Item>)
    ensures r.Got? ==> p < r.next <= |s|
    decreases |s| - p, 0
  {
    match ReadU8(s, p)
    case Truncated => Truncated
    case Got(tag, q) =>
      if tag == 0 then Got(NullItem, q)
      else if tag == 1 then
        match ReadU8(s, q) case Truncated => Truncated case Got(b, q1) => Got(BoolItem(b != 0), q1)
      else if tag == 2 then
        match ReadLE(s, q, 8) case Truncated => Truncated case Got(n, q1) => Pow256Of8(); Got(IntItem(FromTwos(n)), q1)
      else if tag == 3 then
        match ReadLE(s, q, 8) case Truncated => Truncated case Got(n, q1) => Got(FloatItem(n), q1)
      else if tag == 4 then
        match ReadU8(s, q) case Truncated => Truncated case Got(c, q1) => Got(CharItem(c), q1)
      else if tag == 5 || tag == 6 || tag == 11 then
        match ReadString(s, q)
        case Truncated => Truncated
        case Got(t, q1) => Got(if tag == 5 then StrItem(t) else if tag == 6 then RegexItem(t)
          else ExnItem(Error, t), q1)
      else if tag == 7 then
        match ReadString(s, q)
        case Truncated => Truncated
        case Got(t, q1) => (match ReadString(s, q1) case Truncated => Truncated case Got(m, q2) => Got(EnumItem(t, m),
          q2))
      else if tag == 8 || tag == 9 then
        match ReadLE(s, q, 4)
        case Truncated => Truncated
        case Got(n, q1) =>
          (match ReadItems(s, q1, n)
           case Truncated => Truncated
           case Got(vs, q2) => Got(if tag == 8 then ArrayItem(vs) else TupleItem(vs), q2))
      else if tag == 10 then
        match ReadString(s, q)
        case Truncated => Truncated
        case Got(t, q1) =>
          match ReadLE(s, q1, 4)
          case Truncated => Truncated
          case Got(n, q2) =>
            (match ReadFields(s, q2, n) case Truncated => Truncated case Got(fs, q3) => Got(ObjectItem(t, fs), q3))
      else Truncated
  }

  function ReadItems(s: seq<Byte>, p: nat, n: nat): (r: Read<seq<Item>>)
    requires p <= |s|
    ensures r.Got? ==> p <= r.next <= |s|
    decreases |s| - p, 1, n
  {
    if n == 0 then Got([], p)
    else
      match ReadItem(s, p)
      case Truncated => Truncated
      case Got(v, q) => (match ReadItems(s, q, n - 1) case Truncated => Truncated case Got(vs, q1) => Got([v] + vs, q1))
  }

  function ReadFields(s: seq<Byte>, p: nat, n: nat): (r: Read<seq<Field>>)
    requires p <= |s|
    ensures r.Got? ==> p <= r.next <= |s|
    decreases |s| - p, 1, n
  {
    if n == 0 then Got([], p)
    else
      match ReadString(s, p)
      case Truncated => Truncated
      case Got(name, q) =>
        match ReadItem(s, q)
        case Truncated => Truncated
        case Got(v, q1) =>
          (match ReadFields(s, q1, n - 1) case Truncated => Truncated case Got(fs, q2) => Got([Field(name, v)] + fs,
            q2))
  }

  // ---- round trip ----

  /** The value at the other end: an exception arrives as a plain error. */
  function Arriving(v: Item): Item
    decreases v, 1
  {
    match v
    case ArrayItem(vs) => ArrayItem(AllArriving(vs))
    case TupleItem(vs) => TupleItem(AllArriving(vs))
    case ObjectItem(t, fs) => ObjectItem(t, FieldsArriving(fs))
    case ExnItem(_, m) => ExnItem(Error, m)
    case _ => v
  }

  function AllArriving(vs: seq<Item>): (r: seq<Item>)
    ensures |r| == |vs|
    decreases vs, 0
  {
    if vs == [] then [] else [Arriving(vs[0])] + AllArriving(vs[1..])
  }

  function FieldsArriving(fs: seq<Field>): (r: seq<Field>)
    ensures |r| == |fs|
    decreases fs, 0
  {
    if fs == [] then [] else [Field(fs[0].name, Arriving(fs[0].item))] + FieldsArriving(fs[1..])
  }

  /** No exception inside is anything but a plain error. */
  predicate PlainErrors(v: Item)
    decreases v, 1
  {
    match v
    case ArrayItem(vs) => AllPlain(vs)
    case TupleItem(vs) => AllPlain(vs)
    case ObjectItem(_, fs) => FieldsPlain(fs)
    case ExnItem(k, _) => k == Error
    case _ => true
  }

  predicate AllPlain(vs: seq<Item>)
    decreases vs, 0
  {
    vs == [] || (PlainErrors(vs[0]) && AllPlain(vs[1..]))
  }

  predicate FieldsPlain(fs: seq<Field>)
    decreases fs, 0
  {
    fs == [] || (PlainErrors(fs[0].item) && FieldsPlain(fs[1..]))
  }

  lemma {:induction false} ArrivingSame(v: Item)
    ensures Arriving(v) == v <==> PlainErrors(v)
    decreases v, 1
  {
    match v
    case ArrayItem(vs) => AllArrivingSame(vs);
    case TupleItem(vs) => AllArrivingSame(vs);
    case ObjectItem(_, fs) => FieldsArrivingSame(fs);
    case _ =>
  }

  lemma {:induction false} AllArrivingSame(vs: seq<Item>)
    ensures AllArriving(vs) == vs <==> AllPlain(vs)
    decreases vs, 0
  {
    if vs != [] {
      ArrivingSame(vs[0]);
      AllArrivingSame(vs[1..]);
      assert vs == [vs[0]] + vs[1..];
      assert AllArriving(vs)[0] == Arriving(vs[0]) && AllArriving(vs)[1..] == AllArriving(vs[1..]);
    }
  }

  lemma {:induction false} FieldsArrivingSame(fs: seq<Field>)
    ensures FieldsArriving(fs) == fs <==> FieldsPlain(fs)
    decreases fs, 0
  {
    if fs != [] {
      ArrivingSame(fs[0].item);
      FieldsArrivingSame(fs[1..]);
      assert fs == [fs[0]] + fs[1..];
      assert FieldsArriving(fs)[0] == Field(fs[0].name, Arriving(fs[0].item))
        && FieldsArriving(fs)[1..] == FieldsArriving(fs[1..]);
    }
  }

  lemma {:induction false} ReadBack(s: seq<Byte>, p: nat, v: Item)
    requires Typed(v) && Sendable(v) && Carries(s, p, Enc(v))
    ensures ReadItem(s, p) == Got(Arriving(v), p + |Enc(v)|)
    decreases v, 1
  {
    hide Carries, Text, ReadItem;
    match v
    case ArrayItem(vs) => ReadBackSequence(s, p, 8, vs);
    case TupleItem(vs) => ReadBackSequence(s, p, 9, vs);
    case ObjectItem(t, fs) => ReadBackObject(s, p, t, fs);
    case EnumItem(_, _) => ReadBackTexts(s, p, v);
    case StrItem(_) => ReadBackTexts(s, p, v);
    case RegexItem(_) => ReadBackTexts(s, p, v);
    case ExnItem(_, _) => ReadBackTexts(s, p, v);
    case _ => ReadBackScalar(s, p, v);
  }

  lemma ReadBackScalar(s: seq<Byte>, p: nat, v: Item)
    requires Typed(v) && Carries(s, p, Enc(v))
    requires v.NullItem? || v.BoolItem? || v.IntItem? || v.FloatItem? || v.CharItem?
    ensures ReadItem(s, p) == Got(v, p + |Enc(v)|)
  {
    hide Carries, LE, ReadString, ReadItems, ReadFields;
    match v
    case NullItem =>
      assert [0] + [] == [0];
      CarriesTagged(s, p, 0, []);
    case BoolItem(b) => CarriesTagged(s, p, 1, [if b then 1 else 0]); ByteBack(s, p + 1, if b then 1 else 0);
    case IntItem(n) => CarriesTagged(s, p, 2, LE(ToTwos(n), 8)); ReadBackLong(s, p + 1, ToTwos(n));
    case FloatItem(bits) => CarriesTagged(s, p, 3, LE(bits, 8)); ReadBackLong(s, p + 1, bits);
    case CharItem(c) => CarriesTagged(s, p, 4, [c]); ByteBack(s, p + 1, c);
  }

  lemma ByteBack(s: seq<Byte>, p: nat, b: Byte)
    requires Carries(s, p, [b])
    ensures ReadU8(s, p) == Got(b, p + 1)
  {
  }

  lemma ReadBackTexts(s: seq<Byte>, p: nat, v: Item)
    requires Typed(v) && Sendable(v) && Carries(s, p, Enc(v))
      && (v.StrItem? || v.RegexItem? || v.EnumItem? || v.ExnItem?)
    ensures ReadItem(s, p) == Got(Arriving(v), p + |Enc(v)|)
  {
    hide Carries, Text, ReadString, ReadItems, ReadFields;
    match v
    case StrItem(t) => CarriesTagged(s, p, 5, Text(t)); TextBack(s, p + 1, t);
    case RegexItem(t) => CarriesTagged(s, p, 6, Text(t)); TextBack(s, p + 1, t);
    case EnumItem(t, m) =>
      CarriesTagged(s, p, 7, Text(t) + Text(m));
      TextThen(s, p + 1, t, Text(m));
      TextBack(s, p + 1 + |Text(t)|, m);
    case ExnItem(_, m) => CarriesTagged(s, p, 11, Text(m)); TextBack(s, p + 1, m);
  }

  lemma {:induction false} ReadBackSequence(s: seq<Byte>, p: nat, tag: Byte, vs: seq<Item>)
    requires tag == 8 || tag == 9
    requires AllTyped(vs) && |vs| < U32 && AllSendable(vs) && Carries(s, p, [tag] + (LE(|vs|, 4) + EncAll(vs)))
    ensures ReadItem(s, p) == Got(if tag == 8 then ArrayItem(AllArriving(vs)) else TupleItem(AllArriving(vs)),
                                  p + |[tag] + (LE(|vs|, 4) + EncAll(vs))|)
    decreases vs, 1
  {
    CarriesTagged(s, p, tag, LE(|vs|, 4) + EncAll(vs));
    CarriesParts(s, p + 1, LE(|vs|, 4), EncAll(vs));
    ReadBackWord(s, p + 1, |vs|);
    ReadBackItems(s, p + 5, vs);
  }

  lemma {:induction false} ReadBackItems(s: seq<Byte>, p: nat, vs: seq<Item>)
    requires AllTyped(vs) && AllSendable(vs) && Carries(s, p, EncAll(vs))
    ensures ReadItems(s, p, |vs|) == Got(AllArriving(vs), p + |EncAll(vs)|)
    decreases vs, 0
  {
    hide Carries, ReadItem, Enc, Arriving, Sendable, Typed;
    if vs != [] {
      CarriesParts(s, p, Enc(vs[0]), EncAll(vs[1..]));
      ReadBack(s, p, vs[0]);
      ReadBackItems(s, p + |Enc(vs[0])|, vs[1..]);
    }
  }

  lemma {:induction false} ReadBackObject(s: seq<Byte>, p: nat, t: string, fs: seq<Field>)
    requires IsText(t) && |t| < U32 && FieldsTyped(fs) && |fs| < U32 && FieldsSendable(fs)
    requires Carries(s, p, [10] + (Text(t) + (LE(|fs|, 4) + EncFields(fs))))
    ensures ReadItem(s, p) == Got(ObjectItem(t, FieldsArriving(fs)),
      p + |[10] + (Text(t) + (LE(|fs|, 4) + EncFields(fs)))|)
    decreases fs, 1
  {
    hide Carries, Text, ReadString, ReadItems, ReadFields, EncFields, FieldsArriving, FieldsSendable;
    CarriesTagged(s, p, 10, Text(t) + (LE(|fs|, 4) + EncFields(fs)));
    TextThen(s, p + 1, t, LE(|fs|, 4) + EncFields(fs));
    var q := p + 1 + |Text(t)|;
    CarriesParts(s, q, LE(|fs|, 4), EncFields(fs));
    ReadBackWord(s, q, |fs|);
    ReadBackFields(s, q + 4, fs);
  }

  lemma {:induction false} ReadBackFields(s: seq<Byte>, p: nat, fs: seq<Field>)
    requires FieldsTyped(fs) && FieldsSendable(fs) && Carries(s, p, EncFields(fs))
    ensures ReadFields(s, p, |fs|) == Got(FieldsArriving(fs), p + |EncFields(fs)|)
    decreases fs, 0
  {
    hide Carries, Text, ReadString, ReadItem, Enc, Arriving, Sendable;
    if fs != [] {
      var name, item, rest := fs[0].name, fs[0].item, EncFields(fs[1..]);
      TextThen(s, p, name, Enc(item) + rest);
      var q := p + |Text(name)|;
      CarriesParts(s, q, Enc(item), rest);
      ReadBack(s, q, item);
      ReadBackFields(s, q + |Enc(item)|, fs[1..]);
    }
  }

  /** A value that is sent arrives as itself exactly if the exceptions in it are plain
      errors, and its reader stops right behind it. */
  lemma ValueRoundTrip(v: Item, rest: seq<Byte>)
    requires Typed(v) && Sendable(v)
    ensures ReadItem(Enc(v) + rest, 0) == Got(Arriving(v), |Enc(v)|)
    ensures ReadItem(Enc(v) + rest, 0) == Got(v, |Enc(v)|) <==> PlainErrors(v)
  {
    CarriesSlice(Enc(v) + rest, 0, Enc(v));
    assert (Enc(v) + rest)[0..|Enc(v)|] == Enc(v);
    ReadBack(Enc(v) + rest, 0, v);
    ArrivingSame(v);
  }

  /** No encoding is the beginning of another: values in a row can be told apart. */
  lemma PrefixFree(v: Item, w: Item, a: seq<Byte>, b: seq<Byte>)
    requires Typed(v) && Sendable(v) && Typed(w) && Sendable(w) && Enc(v) + a == Enc(w) + b
    ensures Arriving(v) == Arriving(w) && a == b
  {
    ValueRoundTrip(v, a);
    ValueRoundTrip(w, b);
    assert a == (Enc(v) + a)[|Enc(v)|..];
    assert b == (Enc(w) + b)[|Enc(w)|..];
  }

  // ---- in place ----

  /** Append a value; fails, as the source throws, on anything that cannot be sent. */
  method EncodeValue(buffer: ByteWriter, v: Item) returns (ok: bool)
    requires Typed(v)
    modifies buffer
    ensures ok <==> Sendable(v)
    ensures ok ==> buffer.data == old(buffer.data) + Enc(v)
    decreases v, 1
  {
    ok := true;
    match v {
      case NullItem => buffer.AppendU8(0);
      case BoolItem(b) =>
        buffer.AppendU8(1);
        buffer.AppendU8(if b then 1 else 0);
        Regrouped(old(buffer.data), [1], [if b then 1 else 0]);
      case IntItem(n) =>
        buffer.AppendU8(2);
        buffer.AppendWord(ToTwos(n), 8);
        Regrouped(old(buffer.data), [2], LE(ToTwos(n), 8));
      case FloatItem(bits) =>
        buffer.AppendU8(3);
        buffer.AppendWord(bits, 8);
        Regrouped(old(buffer.data), [3], LE(bits, 8));
      case CharItem(c) =>
        buffer.AppendU8(4);
        buffer.AppendU8(c);
        Regrouped(old(buffer.data), [4], [c]);
      case StrItem(t) => ok := EncodeText(buffer, 5, t);
      case RegexItem(t) => ok := EncodeText(buffer, 6, t);
      case EnumItem(t, m) => ok := EncodeEnum(buffer, t, m);
      case ArrayItem(vs) => ok := EncodeSequence(buffer, 8, vs);
      case TupleItem(vs) => ok := EncodeSequence(buffer, 9, vs);
      case ObjectItem(t, fs) => ok := EncodeObject(buffer, t, fs);
      case ExnItem(_, m) => ok := EncodeText(buffer, 11, m);
      case HandleItem => ok := false;
    }
  }

  method EncodeText(buffer: ByteWriter, tag: Byte, t: string) returns (ok: bool)
    modifies buffer
    ensures ok <==> |t| < U32
    ensures ok ==> buffer.data == old(buffer.data) + ([tag] + Text(t))
  {
    if |t| >= U32 {
      return false;
    }
    buffer.AppendU8(tag);
    buffer.AppendText(t);
    Regrouped(old(buffer.data), [tag], Text(t));
    ok := true;
  }

  method EncodeEnum(buffer: ByteWriter, t: string, m: string) returns (ok: bool)
    modifies buffer
    ensures ok <==> |t| < U32 && |m| < U32
    ensures ok ==> buffer.data == old(buffer.data) + ([7] + (Text(t) + Text(m)))
  {
    if |t| >= U32 || |m| >= U32 {
      return false;
    }
    buffer.AppendU8(7);
    buffer.AppendText(t);
    buffer.AppendText(m);
    InOrder(old(buffer.data), [7], Text(t), Text(m));
    ok := true;
  }

  method EncodeSequence(buffer: ByteWriter, tag: Byte, vs: seq<Item>) returns (ok: bool)
    requires AllTyped(vs)
    modifies buffer
    ensures ok <==> |vs| < U32 && AllSendable(vs)
    ensures ok ==> buffer.data == old(buffer.data) + ([tag] + (LE(|vs|, 4) + EncAll(vs)))
    decreases vs, 1
  {
    if |vs| >= U32 {
      return false;
    }
    buffer.AppendU8(tag);
    buffer.AppendWord(|vs|, 4);
    ok := EncodeItems(buffer, vs);
    InOrder(old(buffer.data), [tag], LE(|vs|, 4), EncAll(vs));
  }

  method EncodeItems(buffer: ByteWriter, vs: seq<Item>) returns (ok: bool)
    requires AllTyped(vs)
    modifies buffer
    ensures ok <==> AllSendable(vs)
    ensures ok ==> buffer.data == old(buffer.data) + EncAll(vs)
    decreases vs, 0
  {
    hide Enc, Typed, Sendable;
    assert vs[0..] == vs;
    for i := 0 to |vs|
      invariant AllTyped(vs[i..]) && (AllSendable(vs) <==> AllSendable(vs[i..]))
      invariant buffer.data + EncAll(vs[i..]) == old(buffer.data) + EncAll(vs)
    {
      ghost var rest := vs[i..];
      assert rest[0] == vs[i] && rest[1..] == vs[i + 1..];
      ghost var before := buffer.data;
      ok := EncodeValue(buffer, vs[i]);
      if !ok {
        return;
      }
      Regrouped(before, Enc(vs[i]), EncAll(rest[1..]));
    }
    assert vs[|vs|..] == [] && buffer.data + [] == buffer.data;
    ok := true;
  }

  method EncodeObject(buffer: ByteWriter, t: string, fs: seq<Field>) returns (ok: bool)
    requires FieldsTyped(fs)
    modifies buffer
    ensures ok <==> |t| < U32 && |fs| < U32 && FieldsSendable(fs)
    ensures ok ==> buffer.data == old(buffer.data) + ([10] + (Text(t) + (LE(|fs|, 4) + EncFields(fs))))
    decreases fs, 1
  {
    hide FieldsSendable, EncFields;
    if |t| >= U32 || |fs| >= U32 {
      return false;
    }
    buffer.AppendU8(10);
    buffer.AppendText(t);
    buffer.AppendWord(|fs|, 4);
    ok := EncodeFields(buffer, fs);
    Regrouped(old(buffer.data), [10], Text(t));
    InOrder(old(buffer.data), [10] + Text(t), LE(|fs|, 4), EncFields(fs));
    Regrouped([10], Text(t), LE(|fs|, 4) + EncFields(fs));
  }

  method EncodeFields(buffer: ByteWriter, fs: seq<Field>) returns (ok: bool)
    requires FieldsTyped(fs)
    modifies buffer
    ensures ok <==> FieldsSendable(fs)
    ensures ok ==> buffer.data == old(buffer.data) + EncFields(fs)
    decreases fs, 0
  {
    hide Enc, Typed, Sendable, Text;
    assert fs[0..] == fs;
    for i := 0 to |fs|
      invariant FieldsTyped(fs[i..]) && (FieldsSendable(fs) <==> FieldsSendable(fs[i..]))
      invariant buffer.data + EncFields(fs[i..]) == old(buffer.data) + EncFields(fs)
    {
      ghost var rest := fs[i..];
      assert rest[0] == fs[i] && rest[1..] == fs[i + 1..];
      ghost var before := buffer.data;
      if |fs[i].name| >= U32 {
        return false;
      }
      buffer.AppendText(fs[i].name);
      ok := EncodeValue(buffer, fs[i].item);
      if !ok {
        return;
      }
      InOrder(before, Text(fs[i].name), Enc(fs[i].item), EncFields(rest[1..]));
    }
    assert fs[|fs|..] == [] && buffer.data + [] == buffer.data;
    ok := true;
  }

  /** The payload of a value, or none if it cannot be sent. */
  method Serialize(v: Item) returns (payload: Option<seq<Byte>>)
    requires Typed(v)
    ensures payload == if Sendable(v) then Some(Enc(v)) else None
  {
    var buffer := new ByteWriter();
    var ok := EncodeValue(buffer, v);
    assert [] + Enc(v) == Enc(v);
    payload := if ok then Some(buffer.data) else None;
  }

  // ---- decoding in place ----

  /** Read a value; fails on a truncated payload or an unknown tag. */
  method DecodeValue(input: ByteReader) returns (v: Item)
    requires !input.failed
    modifies input
    ensures match ReadItem(input.data, old(input.cursor))
            case Truncated => input.failed
            case Got(item, next) => !input.failed && v == item && input.cursor == next
    decreases |input.data| - input.cursor, 0
  {
    v := NullItem;
    var tag := input.U8();
    if input.failed {
      return;
    }
    if tag == 0 {
    } else if tag == 1 {
      var b := input.U8();
      v := BoolItem(b != 0);
    } else if tag == 2 {
      var n := input.Word(8);
      if !input.failed {
        FromLEBound(input.data[input.cursor - 8..input.cursor]);
        Pow256Of8();
        v := IntItem(FromTwos(n));
      }
    } else if tag == 3 {
      var n := input.Word(8);
      v := if input.failed then v else FloatItem(n);
    } else if tag == 4 {
      var c := input.U8();
      v := CharItem(c);
    } else if tag == 5 || tag == 6 || tag == 11 {
      var t := input.Text();
      v := if tag == 5 then StrItem(t) else if tag == 6 then RegexItem(t) else ExnItem(Error, t);
    } else if tag == 7 {
      v := DecodeEnum(input);
    } else if tag == 8 || tag == 9 {
      v := DecodeSequence(input, tag);
    } else if tag == 10 {
      v := DecodeObject(input);
    } else {
      input.failed := true;
    }
  }

  method DecodeEnum(input: ByteReader) returns (v: Item)
    requires !input.failed
    modifies input
    ensures match ReadString(input.data, old(input.cursor))
            case Truncated => input.failed
            case Got(t, p) =>
              match ReadString(input.data, p)
              case Truncated => input.failed
              case Got(m, next) => !input.failed && v == EnumItem(t, m) && input.cursor == next
  {
    v := NullItem;
    var t := input.Text();
    if !input.failed {
      var m := input.Text();
      v := EnumItem(t, m);
    }
  }

  method DecodeSequence(input: ByteReader, tag: Byte) returns (v: Item)
    requires !input.failed && (tag == 8 || tag == 9) && input.cursor <= |input.data|
    modifies input
    ensures match ReadLE(input.data, old(input.cursor), 4)
            case Truncated => input.failed
            case Got(n, p) =>
              match ReadItems(input.data, p, n)
              case Truncated => input.failed
              case Got(vs, next) =>
                !input.failed && v == (if tag == 8 then ArrayItem(vs) else TupleItem(vs)) && input.cursor == next
    decreases |input.data| - input.cursor, 2
  {
    v := NullItem;
    var count := input.Word(4);
    if input.failed {
      return;
    }
    v := DecodeItems(input, tag, count);
  }

  /** The elements, one after another. */
  method DecodeItems(input: ByteReader, tag: Byte, count: nat) returns (v: Item)
    requires !input.failed && (tag == 8 || tag == 9) && input.cursor <= |input.data|
    modifies input
    ensures match ReadItems(input.data, old(input.cursor), count)
            case Truncated => input.failed
            case Got(vs, next) =>
              !input.failed && v == (if tag == 8 then ArrayItem(vs) else TupleItem(vs)) && input.cursor == next
    decreases |input.data| - input.cursor, 1
  {
    v := NullItem;
    var items := [];
    ghost var start := input.cursor;
    BehindNone(ReadItems(input.data, start, count));
    for i := 0 to count
      invariant !input.failed && start <= input.cursor <= |input.data|
      invariant ReadItems(input.data, start, count) == Behind(items, ReadItems(input.data, input.cursor, count - i))
    {
      hide ReadItem;
      ghost var at := input.cursor;
      ReadItemAdvances(input.data, at);
      var item := DecodeValue(input);
      if input.failed {
        return;
      }
      BehindStep(items, item, ReadItems(input.data, input.cursor, count - i - 1));
      items := items + [item];
    }
    assert items + [] == items;
    v := if tag == 8 then ArrayItem(items) else TupleItem(items);
  }

  /** What a list read so far and the rest of it make. */
  function Behind<T>(front: seq<T>, r: Read<seq<T>>): Read<seq<T>> {
    match r
    case Truncated => Truncated
    case Got(rest, next) => Got(front + rest, next)
  }

  lemma BehindNone<T>(r: Read<seq<T>>)
    ensures Behind([], r) == r
  {
    if r.Got? {
      assert [] + r.value == r.value;
    }
  }

  lemma BehindStep<T>(front: seq<T>, x: T, r: Read<seq<T>>)
    ensures Behind(front, match r case Truncated => Truncated case Got(rest, next) => Got([x] + rest, next))
      == Behind(front + [x], r)
  {
    if r.Got? {
      assert front + ([x] + r.value) == (front + [x]) + r.value;
    }
  }

  lemma ReadItemAdvances(s: seq<Byte>, p: nat)
    ensures ReadItem(s, p).Got? ==> p < ReadItem(s, p).next <= |s|
  {
  }

  method DecodeObject(input: ByteReader) returns (v: Item)
    requires !input.failed
    modifies input
    ensures match ReadString(input.data, old(input.cursor))
            case Truncated => input.failed
            case Got(t, p) =>
              match ReadLE(input.data, p, 4)
              case Truncated => input.failed
              case Got(n, q) =>
                match ReadFields(input.data, q, n)
                case Truncated => input.failed
                case Got(fs, next) => !input.failed && v == ObjectItem(t, fs) && input.cursor == next
    decreases |input.data| - input.cursor, 2
  {
    v := NullItem;
    var t := input.Text();
    if input.failed {
      return;
    }
    var count := input.Word(4);
    if input.failed {
      return;
    }
    var fields := DecodeFields(input, count);
    v := ObjectItem(t, fields);
  }

  lemma ReadStringAdvances(s: seq<Byte>, p: nat)
    ensures ReadString(s, p).Got? ==> p < ReadString(s, p).next <= |s|
  {
  }

  lemma FieldsStep(s: seq<Byte>, p: nat, n: nat, name: string, v: Item, next: nat)
    requires p <= |s| && n > 0 && ReadString(s, p).Got? && ReadString(s, p).value == name
    requires ReadItem(s, ReadString(s, p).next) == Got(v, next)
    ensures ReadFields(s, p, n) == match ReadFields(s, next, n - 1) case Truncated => Truncated case Got(fs,
      q) => Got([Field(name, v)] + fs, q)
  {
  }

  /** Names and values, one after another. */
  method DecodeFields(input: ByteReader, count: nat) returns (fields: seq<Field>)
    requires !input.failed && input.cursor <= |input.data|
    modifies input
    ensures match ReadFields(input.data, old(input.cursor), count)
            case Truncated => input.failed
            case Got(fs, next) => !input.failed && fields == fs && input.cursor == next
    decreases |input.data| - input.cursor, 1
  {
    hide ReadItem;
    fields := [];
    ghost var start := input.cursor;
    BehindNone(ReadFields(input.data, start, count));
    for i := 0 to count
      invariant !input.failed && start <= input.cursor <= |input.data|
      invariant ReadFields(input.data, start, count) == Behind(fields, ReadFields(input.data, input.cursor, count - i))
    {
      ghost var at := input.cursor;
      ReadStringAdvances(input.data, at);
      hide ReadString;
      var name := input.Text();
      if input.failed {
        return;
      }
      ReadItemAdvances(input.data, input.cursor);
      var item := DecodeValue(input);
      if input.failed {
        return;
      }
      FieldsStep(input.data, at, count - i, name, item, input.cursor);
      BehindStep(fields, Field(name, item), ReadFields(input.data, input.cursor, count - i - 1));
      fields := fields + [Field(name, item)];
    }
    assert fields + [] == fields;
  }

  /** The value a payload means. */
  method Deserialize(payload: seq<Byte>) returns (v: Option<Item>)
    ensures v == match ReadItem(payload, 0) case Truncated => None case Got(item, _) => Some(item)
  {
    var input := new ByteReader(payload);
    var item := DecodeValue(input);
    v := if input.failed then None else Some(item);
  }
}
