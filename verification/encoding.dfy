/** The byte encoding of instructions, and its decoder.

    An instruction is an opcode byte followed by operands of one of a few shapes; the
    interpreter, the disassembler and the emitter all agree on that shape. */
module Encoding {
  import opened Bytes
  import opened Syntax
  import opened Machine
  import opened Layout

  datatype Operand =
    | NoOperand
    | ByteOperand(byte: Byte)
    | WordOperand(word: nat)
    | LongOperand(long: int)
    | DoubleOperand(bits: nat)
    | TextOperand(text: string)
    | TextsOperand(first: string, second: string)
    | TypeOperand(target: TypeNode)

  function BinOpcode(b: BinOp): Byte {
    match b
    case Add => 14 case Sub => 15 case Mul => 16 case Div => 17 case Mod => 18
    case Eq => 20 case Ne => 21 case Lt => 22 case Gt => 23 case Le => 24 case Ge => 25
    case BitAnd => 27 case BitOr => 28 case BitXor => 29
  }

  function OpOpcode(op: Op): Byte {
    match op
    case Binary(b) => BinOpcode(b)
    case Unary(u) => (match u case Neg => 19 case Not => 26 case BitNot => 30)
    case MakeArray(_) => 37
    case MakeTuple(_) => 38
    case IndexGet => 39
    case MemberGet(_) => 40
    case Cast(_) => 42
    case Alloc(_) => 43
    case CloneObject => 45
    case MakeSimd => 46
    case MakeMap(_) => 48
  }

  function LitOpcode(l: Lit): Byte {
    match l
    case IntLit(_) => 0 case FloatLit(_) => 1 case StrLit(_) => 2 case CharLit(_) => 3
    case BoolLit(_) => 4 case NullLit => 5 case RegexLit(_) => 6 case EnumLit(_, _) => 7 case FuncLit(_) => 8
  }

  /** The opcode byte: the position in the instruction set's declaration. */
  function OpcodeOf(i: Instr): Byte {
    match i
    case Push(l) => LitOpcode(l)
    case Pop => 9 case Dup => 10 case Swap => 11
    case Load(_) => 12 case Store(_) => 13
    case Do(op) => OpOpcode(op)
    case Jmp(_) => 31 case JmpIfFalse(_) => 32 case JmpIfTrue(_) => 33
    case CallN(_) => 34 case Ret => 35 case Halt => 36
    case Unpack(_) => 41
    case MonitorEnter(_) => 58 case MonitorExit => 59 case HintBranch(_) => 60
  }

  function ByteOf(n: nat): Byte {
    n % 256
  }

  function OperandOf(i: Instr): Operand {
    match i
    case Push(IntLit(n)) => LongOperand(n)
    case Push(FloatLit(bits)) => DoubleOperand(bits)
    case Push(StrLit(s)) => TextOperand(s)
    case Push(CharLit(c)) => ByteOperand(ByteOf(c))
    case Push(BoolLit(b)) => ByteOperand(if b then 1 else 0)
    case Push(NullLit) => NoOperand
    case Push(RegexLit(p)) => TextOperand(p)
    case Push(EnumLit(e, m)) => TextsOperand(e, m)
    case Push(FuncLit(f)) => TextOperand(f)
    case Load(s) => TextOperand(s)
    case Store(s) => TextOperand(s)
    case Do(MemberGet(s)) => TextOperand(s)
    case Do(MakeArray(n)) => WordOperand(n)
    case Do(MakeTuple(n)) => WordOperand(n)
    case Do(MakeMap(n)) => WordOperand(n)
    case Do(Alloc(n)) => WordOperand(n)
    case Do(Cast(t)) => TypeOperand(t)
    case Jmp(t) => WordOperand(t)
    case JmpIfFalse(t) => WordOperand(t)
    case JmpIfTrue(t) => WordOperand(t)
    case CallN(n) => ByteOperand(ByteOf(n))
    case Unpack(n) => ByteOperand(ByteOf(n))
    case MonitorEnter(t) => WordOperand(t)
    case HintBranch(b) => ByteOperand(if b then 1 else 0)
    case _ => NoOperand
  }

  /** A type operand the encoding can hold. */
  predicate TypeFits(t: TypeNode)
    decreases t, 1
  {
    match t
    case Primitive(k) => k < 256
    case Named(n) => TextFits(n)
    case ArrayOf(e) => TypeFits(e)
    case TupleOf(es) => |es| < U32 && TypesFit(es)
    case MapOf(k, v) => TypeFits(k) && TypeFits(v)
    case LambdaOf(ps, r) => |ps| < U32 && TypesFit(ps) && TypeFits(r)
  }

  predicate TypesFit(ts: seq<TypeNode>)
    decreases ts, 0
  {
    ts == [] || (TypeFits(ts[0]) && TypesFit(ts[1..]))
  }

  predicate OperandFits(o: Operand) {
    match o
    case NoOperand => true
    case ByteOperand(_) => true
    case WordOperand(n) => n < U32
    case LongOperand(n) => IsI64(n)
    case DoubleOperand(bits) => bits < U64
    case TextOperand(s) => TextFits(s)
    case TextsOperand(a, b) => TextFits(a) && TextFits(b)
    case TypeOperand(t) => TypeFits(t)
  }

  /** The operands of `i` fit their encoded widths. */
  predicate Encodable(i: Instr) {
    && OperandFits(OperandOf(i))
    && (i.CallN? ==> i.argc < 256)
    && (i.Unpack? ==> i.count < 256)
    && (i.Push? && i.lit.CharLit? ==> i.lit.code < 256)
  }

  // ---- the string table ----

  /** Interned texts and where their bytes are. */
  type Table = map<string, nat>

  predicate Stored(t: string, tab: Table, data: seq<Byte>)
    requires t in tab
  {
    tab[t] + |t| <= |data| && data[tab[t]..tab[t] + |t|] == ToBytes(t)
  }

  ghost predicate TableOk(tab: Table, data: seq<Byte>) {
    forall t {:trigger Stored(t, tab, data)} | t in tab :: Stored(t, tab, data)
  }

  // ---- encoder ----

  function EncText(s: string, tab: Table): (r: seq<Byte>)
    ensures |r| == 8
  {
    LE(if s in tab then tab[s] else 0, 4) + LE(|s|, 4)
  }

  function EncType(t: TypeNode, tab: Table): (r: seq<Byte>)
    ensures |r| == TypeWidth(t)
    decreases t, 1
  {
    match t
    case Primitive(k) => [0, ByteOf(k)]
    case Named(n) => [1] + EncText(n, tab)
    case ArrayOf(e) => [2] + EncType(e, tab)
    case TupleOf(es) => [3] + LE(|es|, 4) + EncTypes(es, tab)
    case MapOf(k, v) => [4] + EncType(k, tab) + EncType(v, tab)
    case LambdaOf(ps, ret) => [5] + LE(|ps|, 4) + EncTypes(ps, tab) + EncType(ret, tab)
  }

  function EncTypes(ts: seq<TypeNode>, tab: Table): (r: seq<Byte>)
    ensures |r| == TypesWidth(ts)
    decreases ts, 0
  {
    if ts == [] then [] else EncType(ts[0], tab) + EncTypes(ts[1..], tab)
  }

  function EncOperand(o: Operand, tab: Table): seq<Byte> {
    match o
    case NoOperand => []
    case ByteOperand(b) => [b]
    case WordOperand(n) => LE(n, 4)
    case LongOperand(n) => if IsI64(n) then LE(ToTwos(n), 8) else LE(0, 8)
    case DoubleOperand(bits) => LE(bits, 8)
    case TextOperand(s) => EncText(s, tab)
    case TextsOperand(a, b) => EncText(a, tab) + EncText(b, tab)
    case TypeOperand(t) => EncType(t, tab)
  }

  function EncInstr(i: Instr, tab: Table): (r: seq<Byte>)
    ensures |r| == Width(i)
  {
    [OpcodeOf(i)] + EncOperand(OperandOf(i), tab)
  }

  /** Every text a type operand refers to is interned. */
  predicate TypeKnown(t: TypeNode, tab: Table)
    decreases t, 1
  {
    match t
    case Primitive(_) => true
    case Named(n) => n in tab
    case ArrayOf(e) => TypeKnown(e, tab)
    case TupleOf(es) => TypesKnown(es, tab)
    case MapOf(k, v) => TypeKnown(k, tab) && TypeKnown(v, tab)
    case LambdaOf(ps, r) => TypesKnown(ps, tab) && TypeKnown(r, tab)
  }

  predicate TypesKnown(ts: seq<TypeNode>, tab: Table)
    decreases ts, 0
  {
    ts == [] || (TypeKnown(ts[0], tab) && TypesKnown(ts[1..], tab))
  }

  /** Every text an operand refers to is interned. */
  predicate Known(o: Operand, tab: Table) {
    match o
    case TextOperand(s) => s in tab
    case TextsOperand(a, b) => a in tab && b in tab
    case TypeOperand(t) => TypeKnown(t, tab)
    case _ => true
  }

  predicate Knows(tab: Table, text: string, offset: nat) {
    text in tab && tab[text] == offset
  }

  ghost predicate Grows(tab: Table, tab1: Table) {
    forall t, o {:trigger Knows(tab, t, o)} :: Knows(tab, t, o) ==> Knows(tab1, t, o)
  }

  lemma GrowsSelf(tab: Table)
    ensures Grows(tab, tab)
  {
  }

  lemma GrowsTwice(a: Table, b: Table, c: Table)
    requires Grows(a, b) && Grows(b, c)
    ensures Grows(a, c)
  {
  }

  lemma TextStill(text: string, tab: Table, tab1: Table)
    requires text in tab && Grows(tab, tab1)
    ensures text in tab1 && EncText(text, tab1) == EncText(text, tab)
  {
    assert Knows(tab, text, tab[text]);
  }

  lemma {:induction false} EncTypeStill(t: TypeNode, tab: Table, tab1: Table)
    requires TypeKnown(t, tab) && Grows(tab, tab1)
    ensures TypeKnown(t, tab1) && EncType(t, tab1) == EncType(t, tab)
    decreases t, 1
  {
    match t
    case Primitive(_) =>
    case Named(n) => TextStill(n, tab, tab1);
    case ArrayOf(e) => EncTypeStill(e, tab, tab1);
    case TupleOf(es) => EncTypesStill(es, tab, tab1);
    case MapOf(k, v) => EncTypeStill(k, tab, tab1); EncTypeStill(v, tab, tab1);
    case LambdaOf(ps, r) => EncTypesStill(ps, tab, tab1); EncTypeStill(r, tab, tab1);
  }

  lemma {:induction false} EncTypesStill(ts: seq<TypeNode>, tab: Table, tab1: Table)
    requires TypesKnown(ts, tab) && Grows(tab, tab1)
    ensures TypesKnown(ts, tab1) && EncTypes(ts, tab1) == EncTypes(ts, tab)
    decreases ts, 0
  {
    if ts != [] {
      EncTypeStill(ts[0], tab, tab1);
      EncTypesStill(ts[1..], tab, tab1);
    }
  }

  /** String references stay valid as the table grows. */
  lemma EncInstrStill(i: Instr, tab: Table, tab1: Table)
    requires Known(OperandOf(i), tab) && Grows(tab, tab1)
    ensures Known(OperandOf(i), tab1) && EncInstr(i, tab1) == EncInstr(i, tab)
  {
    match OperandOf(i)
    case TextOperand(s) => TextStill(s, tab, tab1);
    case TextsOperand(a, b) => TextStill(a, tab, tab1); TextStill(b, tab, tab1);
    case TypeOperand(t) => EncTypeStill(t, tab, tab1);
    case _ =>
  }

  // ---- decoder ----

  /** A value and the offset behind it. */
  datatype Read<+T> = Got(value: T, next: nat) | Truncated

  function ReadU8(code: seq<Byte>, p: nat): (r: Read<Byte>)
    ensures r.Got? ==> r.next == p + 1 <= |code|
  {
    if p + 1 <= |code| then Got(code[p], p + 1) else Truncated
  }

  function ReadLE(code: seq<Byte>, p: nat, k: nat): (r: Read<nat>)
    ensures r.Got? ==> r.next == p + k <= |code| && r.value < Pow256(k)
  {
    if p + k <= |code| then FromLEBound(code[p..p + k]); Got(FromLE(code[p..p + k]), p + k) else Truncated
  }

  /** A string operand: an offset and a length that must lie inside the table. */
  function ReadText(code: seq<Byte>, strs: seq<Byte>, p: nat): (r: Read<string>)
    ensures r.Got? ==> r.next == p + 8 <= |code|
  {
    match ReadLE(code, p, 4)
    case Truncated => Truncated
    case Got(offset, p1) =>
      match ReadLE(code, p1, 4)
      case Truncated => Truncated
      case Got(length, p2) =>
        if offset + length <= |strs| then Got(ToText(strs[offset..offset + length]), p2) else Truncated
  }

  function ReadType(code: seq<Byte>, strs: seq<Byte>, p: nat): (r: Read<TypeNode>)
    ensures r.Got? ==> p < r.next <= |code|
    decreases |code| - p, 0
  {
    match ReadU8(code, p)
    case Truncated => Truncated
    case Got(tag, p1) =>
      if tag == 0 then
        match ReadU8(code, p1) case Truncated => Truncated case Got(k, p2) => Got(Primitive(k), p2)
      else if tag == 1 then
        match ReadText(code, strs, p1) case Truncated => Truncated case Got(n, p2) => Got(Named(n), p2)
      else if tag == 2 then
        match ReadType(code, strs, p1) case Truncated => Truncated case Got(e, p2) => Got(ArrayOf(e), p2)
      else if tag == 3 then
        match ReadLE(code, p1, 4)
        case Truncated => Truncated
        case Got(n, p2) =>
          (match ReadTypes(code, strs, p2, n) case Truncated => Truncated case Got(es, p3) => Got(TupleOf(es), p3))
      else if tag == 4 then
        match ReadType(code, strs, p1)
        case Truncated => Truncated
        case Got(k, p2) =>
          (match ReadType(code, strs, p2) case Truncated => Truncated case Got(v, p3) => Got(MapOf(k, v), p3))
      else if tag == 5 then
        match ReadLE(code, p1, 4)
        case Truncated => Truncated
        case Got(n, p2) =>
          match ReadTypes(code, strs, p2, n)
          case Truncated => Truncated
          case Got(ps, p3) =>
            (match ReadType(code, strs, p3) case Truncated => Truncated case Got(ret, p4) => Got(LambdaOf(ps, ret), p4))
      else Truncated
  }

  function ReadTypes(code: seq<Byte>, strs: seq<Byte>, p: nat, n: nat): (r: Read<seq<TypeNode>>)
    requires p <= |code|
    ensures r.Got? ==> p <= r.next <= |code|
    decreases |code| - p, 1, n
  {
    if n == 0 then Got([], p)
    else
      match ReadType(code, strs, p)
      case Truncated => Truncated
      case Got(t, p1) =>
        match ReadTypes(code, strs, p1, n - 1)
        case Truncated => Truncated
        case Got(ts, p2) => Got([t] + ts, p2)
  }

  datatype Shape = NoneShape | U8Shape | U32Shape | I64Shape | F64Shape | StrShape | Str2Shape | TypeShape
      | UnknownShape

  /** The operands that follow an opcode byte. */
  function ShapeOf(op: Byte): Shape {
    if op == 0 then I64Shape
    else if op == 1 then F64Shape
    else if op in {2, 6, 8, 12, 13, 40} then StrShape
    else if op in {3, 4, 34, 41, 60} then U8Shape
    else if op == 7 then Str2Shape
    else if op in {31, 32, 33, 37, 38, 43, 48, 58} then U32Shape
    else if op == 42 then TypeShape
    else if op in {44, 47} || 49 <= op <= 57 || 61 <= op then UnknownShape
    else NoneShape
  }

  function ReadOperand(shape: Shape, code: seq<Byte>, strs: seq<Byte>, p: nat): (r: Read<Operand>)
    requires p <= |code|
  {
    match shape
    case NoneShape => Got(NoOperand, p)
    case U8Shape => (match ReadU8(code, p) case Truncated => Truncated case Got(b, q) => Got(ByteOperand(b), q))
    case U32Shape => (match ReadLE(code, p, 4) case Truncated => Truncated case Got(n, q) => Got(WordOperand(n), q))
    case I64Shape =>
      (match ReadLE(code, p, 8)
       case Truncated => Truncated
       case Got(n, q) => Pow256Of8(); Got(LongOperand(FromTwos(n)), q))
    case F64Shape => (match ReadLE(code, p, 8) case Truncated => Truncated case Got(n, q) => Got(DoubleOperand(n), q))
    case StrShape => (match ReadText(code, strs, p) case Truncated => Truncated case Got(s, q) => Got(TextOperand(s),
      q))
    case Str2Shape =>
      (match ReadText(code, strs, p)
       case Truncated => Truncated
       case Got(a, q) =>
         match ReadText(code, strs, q) case Truncated => Truncated case Got(b, q2) => Got(TextsOperand(a, b), q2))
    case TypeShape => (match ReadType(code, strs, p) case Truncated => Truncated case Got(t, q) => Got(TypeOperand(t),
      q))
    case UnknownShape => Truncated
  }

  function BuildPlain(op: Byte): Option<Instr> {
    if op == 5 then Some(Push(NullLit))
    else if op == 9 then Some(Pop)
    else if op == 10 then Some(Dup)
    else if op == 11 then Some(Swap)
    else if op == 14 then Some(Do(Binary(Add)))
    else if op == 15 then Some(Do(Binary(Sub)))
    else if op == 16 then Some(Do(Binary(Mul)))
    else if op == 17 then Some(Do(Binary(Div)))
    else if op == 18 then Some(Do(Binary(Mod)))
    else if op == 19 then Some(Do(Unary(Neg)))
    else if op == 20 then Some(Do(Binary(Eq)))
    else if op == 21 then Some(Do(Binary(Ne)))
    else if op == 22 then Some(Do(Binary(Lt)))
    else if op == 23 then Some(Do(Binary(Gt)))
    else if op == 24 then Some(Do(Binary(Le)))
    else if op == 25 then Some(Do(Binary(Ge)))
    else if op == 26 then Some(Do(Unary(Not)))
    else if op == 27 then Some(Do(Binary(BitAnd)))
    else if op == 28 then Some(Do(Binary(BitOr)))
    else if op == 29 then Some(Do(Binary(BitXor)))
    else if op == 30 then Some(Do(Unary(BitNot)))
    else if op == 35 then Some(Ret)
    else if op == 36 then Some(Instr.Halt)
    else if op == 39 then Some(Do(IndexGet))
    else if op == 45 then Some(Do(CloneObject))
    else if op == 46 then Some(Do(MakeSimd))
    else if op == 59 then Some(MonitorExit)
    else None
  }

  /** The instruction an opcode byte and its operand mean. */
  function Build(op: Byte, o: Operand): Option<Instr> {
    match o
    case NoOperand => BuildPlain(op)
    case ByteOperand(b) =>
      if op == 3 then Some(Push(CharLit(b)))
      else if op == 4 then Some(Push(BoolLit(b != 0)))
      else if op == 34 then Some(CallN(b))
      else if op == 41 then Some(Instr.Unpack(b))
      else if op == 60 then Some(HintBranch(b != 0))
      else None
    case WordOperand(n) =>
      if op == 31 then Some(Jmp(n))
      else if op == 32 then Some(JmpIfFalse(n))
      else if op == 33 then Some(JmpIfTrue(n))
      else if op == 37 then Some(Do(MakeArray(n)))
      else if op == 38 then Some(Do(MakeTuple(n)))
      else if op == 43 then Some(Do(Alloc(n)))
      else if op == 48 then Some(Do(MakeMap(n)))
      else if op == 58 then Some(MonitorEnter(n))
      else None
    case LongOperand(n) => Some(Push(IntLit(n)))
    case DoubleOperand(bits) => Some(Push(FloatLit(bits)))
    case TextOperand(s) =>
      if op == 2 then Some(Push(StrLit(s)))
      else if op == 6 then Some(Push(RegexLit(s)))
      else if op == 8 then Some(Push(FuncLit(s)))
      else if op == 12 then Some(Load(s))
      else if op == 13 then Some(Store(s))
      else if op == 40 then Some(Do(MemberGet(s)))
      else None
    case TextsOperand(a, b) => Some(Push(EnumLit(a, b)))
    case TypeOperand(t) => Some(Do(Cast(t)))
  }

  /** Decode the instruction at `pc`, as the interpreter does. */
  function Decode(code: seq<Byte>, strs: seq<Byte>, pc: nat): Fetched {
    if pc >= |code| then EndOfCode
    else
      match ReadOperand(ShapeOf(code[pc]), code, strs, pc + 1)
      case Truncated => Malformed
      case Got(o, next) =>
        match Build(code[pc], o)
        case None => Malformed
        case Some(i) => Instruction(i, next)
  }

  /** A code blob and its string table as the interpreter sees them. */
  function View(code: seq<Byte>, strs: seq<Byte>): Code {
    Code((pc: nat) => Decode(code, strs, pc), |code|)
  }

  // ---- decoding inverts encoding ----

  lemma ReadBackWord(code: seq<Byte>, p: nat, n: nat)
    requires Carries(code, p, LE(n, 4)) && n < U32
    ensures ReadLE(code, p, 4) == Got(n, p + 4)
  {
    assert p <= |code| by { assert LE(n, 4) != []; }
    CarriesSlice(code, p, LE(n, 4));
    Word32(n);
  }

  lemma ReadBackText(code: seq<Byte>, strs: seq<Byte>, p: nat, s: string, tab: Table)
    requires Carries(code, p, EncText(s, tab)) && s in tab && TextFits(s) && TableOk(tab, strs) && |strs| < U32
    ensures ReadText(code, strs, p) == Got(s, p + 8)
  {
    assert Stored(s, tab, strs);
    CarriesParts(code, p, LE(tab[s], 4), LE(|s|, 4));
    ReadBackWord(code, p, tab[s]);
    ReadBackWord(code, p + 4, |s|);
    ReadTextAt(code, strs, p, tab[s], |s|);
    TextRoundTrip(s);
  }

  lemma ReadTextAt(code: seq<Byte>, strs: seq<Byte>, p: nat, offset: nat, length: nat)
    requires ReadLE(code, p, 4) == Got(offset, p + 4) && ReadLE(code, p + 4, 4) == Got(length, p + 8)
    requires offset + length <= |strs|
    ensures ReadText(code, strs, p) == Got(ToText(strs[offset..offset + length]), p + 8)
  {
  }

  lemma {:induction false} ReadBackType(code: seq<Byte>, strs: seq<Byte>, p: nat, t: TypeNode, tab: Table)
    requires Carries(code, p, EncType(t, tab)) && TypeKnown(t, tab) && TypeFits(t)
    requires TableOk(tab, strs) && |strs| < U32
    ensures ReadType(code, strs, p) == Got(t, p + TypeWidth(t))
    decreases t, 1
  {
    match t
    case Primitive(k) => assert [0, ByteOf(k)][1..] == [ByteOf(k)];
    case Named(n) =>
      CarriesTagged(code, p, 1, EncText(n, tab));
      ReadBackText(code, strs, p + 1, n, tab);
    case ArrayOf(e) =>
      CarriesTagged(code, p, 2, EncType(e, tab));
      ReadBackType(code, strs, p + 1, e, tab);
    case TupleOf(es) => ReadBackTuple(code, strs, p, es, tab);
    case MapOf(k, v) => ReadBackMap(code, strs, p, k, v, tab);
    case LambdaOf(ps, ret) => ReadBackLambda(code, strs, p, ps, ret, tab);
  }

  lemma {:induction false} ReadBackTuple(code: seq<Byte>, strs: seq<Byte>, p: nat, es: seq<TypeNode>, tab: Table)
    requires Carries(code, p, [3] + LE(|es|, 4) + EncTypes(es, tab)) && TypesKnown(es, tab) && |es| < U32
      && TypesFit(es)
    requires TableOk(tab, strs) && |strs| < U32
    ensures ReadType(code, strs, p) == Got(TupleOf(es), p + 5 + TypesWidth(es))
    decreases es, 1
  {
    CarriesTagged2(code, p, 3, LE(|es|, 4), EncTypes(es, tab));
    ReadBackWord(code, p + 1, |es|);
    ReadBackTypes(code, strs, p + 5, es, tab);
  }

  lemma {:induction false} ReadBackMap(code: seq<Byte>, strs: seq<Byte>, p: nat, k: TypeNode, v: TypeNode, tab: Table)
    requires Carries(code, p, [4] + EncType(k, tab) + EncType(v, tab))
    requires TypeKnown(k, tab) && TypeKnown(v, tab) && TypeFits(k) && TypeFits(v)
    requires TableOk(tab, strs) && |strs| < U32
    ensures ReadType(code, strs, p) == Got(MapOf(k, v), p + 1 + TypeWidth(k) + TypeWidth(v))
    decreases MapOf(k, v), 0
  {
    var mid := p + 1 + TypeWidth(k);
    MapParts(code, p, k, v, tab, mid);
    ReadBackType(code, strs, p + 1, k, tab);
    ReadBackType(code, strs, mid, v, tab);
    ReadMapStep(code, strs, p, k, mid, v, mid + TypeWidth(v));
  }

  lemma MapParts(code: seq<Byte>, p: nat, k: TypeNode, v: TypeNode, tab: Table, mid: nat)
    requires Carries(code, p, [4] + EncType(k, tab) + EncType(v, tab)) && mid == p + 1 + TypeWidth(k)
    ensures p < |code| && code[p] == 4 && Carries(code, p + 1, EncType(k, tab)) && Carries(code, mid, EncType(v, tab))
  {
    CarriesTagged2(code, p, 4, EncType(k, tab), EncType(v, tab));
  }

  lemma LambdaParts(code: seq<Byte>, p: nat, n: nat, b: seq<Byte>, c: seq<Byte>)
    requires Carries(code, p, [5] + LE(n, 4) + b + c) && n < U32
    ensures p < |code| && code[p] == 5 && ReadLE(code, p + 1, 4) == Got(n, p + 5)
    ensures Carries(code, p + 5, b) && Carries(code, p + 5 + |b|, c)
  {
    CarriesTagged3(code, p, 5, LE(n, 4), b, c);
    ReadBackWord(code, p + 1, n);
  }

  lemma {:induction false} ReadBackLambda(code: seq<Byte>, strs: seq<Byte>, p: nat, ps: seq<TypeNode>, ret: TypeNode,
      tab: Table)
    requires Carries(code, p, [5] + LE(|ps|, 4) + EncTypes(ps, tab) + EncType(ret, tab))
    requires TypesKnown(ps, tab) && TypeKnown(ret, tab) && |ps| < U32 && TypesFit(ps) && TypeFits(ret)
    requires TableOk(tab, strs) && |strs| < U32
    ensures ReadType(code, strs, p) == Got(LambdaOf(ps, ret), p + 5 + TypesWidth(ps) + TypeWidth(ret))
    decreases LambdaOf(ps, ret), 0
  {
    var p1 := p + 5 + TypesWidth(ps);
    LambdaParts(code, p, |ps|, EncTypes(ps, tab), EncType(ret, tab));
    ReadBackTypes(code, strs, p + 5, ps, tab);
    ReadBackType(code, strs, p1, ret, tab);
    ReadLambdaStep(code, strs, p, ps, p1, ret, p1 + TypeWidth(ret));
  }

  lemma ReadTypesStep(code: seq<Byte>, strs: seq<Byte>, p: nat, t: TypeNode, p1: nat, ts: seq<TypeNode>, p2: nat)
    requires p <= |code| && ReadType(code, strs, p) == Got(t, p1) && ReadTypes(code, strs, p1, |ts|) == Got(ts, p2)
    ensures ReadTypes(code, strs, p, |ts| + 1) == Got([t] + ts, p2)
  {
  }

  lemma ReadMapStep(code: seq<Byte>, strs: seq<Byte>, p: nat, k: TypeNode, p1: nat, v: TypeNode, p2: nat)
    requires p < |code| && code[p] == 4 && ReadType(code, strs, p + 1) == Got(k, p1)
      && ReadType(code, strs, p1) == Got(v, p2)
    ensures ReadType(code, strs, p) == Got(MapOf(k, v), p2)
  {
  }

  lemma ReadLambdaStep(code: seq<Byte>, strs: seq<Byte>, p: nat, ps: seq<TypeNode>, p1: nat, ret: TypeNode, p2: nat)
    requires p < |code| && code[p] == 5 && ReadLE(code, p + 1, 4) == Got(|ps|, p + 5)
    requires ReadTypes(code, strs, p + 5, |ps|) == Got(ps, p1) && ReadType(code, strs, p1) == Got(ret, p2)
    ensures ReadType(code, strs, p) == Got(LambdaOf(ps, ret), p2)
  {
  }

  lemma {:induction false} ReadBackTypes(code: seq<Byte>, strs: seq<Byte>, p: nat, ts: seq<TypeNode>, tab: Table)
    requires Carries(code, p, EncTypes(ts, tab)) && TypesKnown(ts, tab) && TypesFit(ts)
    requires TableOk(tab, strs) && |strs| < U32
    ensures ReadTypes(code, strs, p, |ts|) == Got(ts, p + TypesWidth(ts))
    decreases ts, 0
  {
    if ts != [] {
      var p1, rest := p + TypeWidth(ts[0]), ts[1..];
      CarriesParts(code, p, EncType(ts[0], tab), EncTypes(rest, tab));
      ReadBackType(code, strs, p, ts[0], tab);
      ReadBackTypes(code, strs, p1, rest, tab);
      ReadTypesStep(code, strs, p, ts[0], p1, rest, p1 + TypesWidth(rest));
      assert p1 + TypesWidth(rest) == p + TypesWidth(ts) && |rest| + 1 == |ts|;
      assert [ts[0]] + rest == ts;
    }
  }

  lemma ReadBackLong(code: seq<Byte>, p: nat, n: nat)
    requires Carries(code, p, LE(n, 8)) && n < U64
    ensures ReadLE(code, p, 8) == Got(n, p + 8)
  {
    assert p <= |code| by { assert LE(n, 8) != []; }
    CarriesSlice(code, p, LE(n, 8));
    Word64(n);
  }

  /** The shape a decoder expects for an operand. */
  function ShapeFor(o: Operand): Shape {
    match o
    case NoOperand => NoneShape
    case ByteOperand(_) => U8Shape
    case WordOperand(_) => U32Shape
    case LongOperand(_) => I64Shape
    case DoubleOperand(_) => F64Shape
    case TextOperand(_) => StrShape
    case TextsOperand(_, _) => Str2Shape
    case TypeOperand(_) => TypeShape
  }

  lemma ReadBackNumber(code: seq<Byte>, strs: seq<Byte>, p: nat, o: Operand, tab: Table)
    requires o.WordOperand? || o.LongOperand? || o.DoubleOperand?
    requires p <= |code| && Carries(code, p, EncOperand(o, tab)) && OperandFits(o)
    ensures ReadOperand(ShapeFor(o), code, strs, p) == Got(o, p + |EncOperand(o, tab)|)
  {
    match o
    case WordOperand(n) => ReadBackWord(code, p, n);
    case LongOperand(n) => ReadBackLong(code, p, ToTwos(n));
    case DoubleOperand(bits) => ReadBackLong(code, p, bits);
  }

  lemma ReadBackOperand(code: seq<Byte>, strs: seq<Byte>, p: nat, o: Operand, tab: Table)
    requires p <= |code| && Carries(code, p, EncOperand(o, tab)) && Known(o, tab) && OperandFits(o)
    requires TableOk(tab, strs) && |strs| < U32
    ensures ReadOperand(ShapeFor(o), code, strs, p) == Got(o, p + |EncOperand(o, tab)|)
  {
    match o
    case NoOperand =>
    case ByteOperand(b) =>
    case WordOperand(_) => ReadBackNumber(code, strs, p, o, tab);
    case LongOperand(_) => ReadBackNumber(code, strs, p, o, tab);
    case DoubleOperand(_) => ReadBackNumber(code, strs, p, o, tab);
    case TextOperand(s) => ReadBackText(code, strs, p, s, tab);
    case TextsOperand(a, b) => ReadBackTexts(code, strs, p, a, b, tab);
    case TypeOperand(t) => ReadBackTypeOperand(code, strs, p, t, tab);
  }

  lemma ReadBackTexts(code: seq<Byte>, strs: seq<Byte>, p: nat, a: string, b: string, tab: Table)
    requires Carries(code, p, EncText(a, tab) + EncText(b, tab)) && a in tab && b in tab && TextFits(a) && TextFits(b)
    requires TableOk(tab, strs) && |strs| < U32
    ensures ReadText(code, strs, p) == Got(a, p + 8) && ReadText(code, strs, p + 8) == Got(b, p + 16)
  {
    CarriesParts(code, p, EncText(a, tab), EncText(b, tab));
    ReadBackText(code, strs, p, a, tab);
    ReadBackText(code, strs, p + 8, b, tab);
  }

  lemma ReadBackTypeOperand(code: seq<Byte>, strs: seq<Byte>, p: nat, t: TypeNode, tab: Table)
    requires p <= |code| && Carries(code, p, EncType(t, tab)) && TypeKnown(t, tab) && TypeFits(t)
    requires TableOk(tab, strs) && |strs| < U32
    ensures ReadOperand(TypeShape, code, strs, p) == Got(TypeOperand(t), p + |EncType(t, tab)|)
  {
    ReadBackType(code, strs, p, t, tab);
  }

  ghost predicate BuildsBack(i: Instr) {
    ShapeOf(OpcodeOf(i)) == ShapeFor(OperandOf(i)) && Build(OpcodeOf(i), OperandOf(i)) == Some(i)
  }

  lemma PushBuildsBack(l: Lit)
    requires Encodable(Push(l))
    ensures BuildsBack(Push(l))
  {
  }

  lemma DoBuildsBack(op: Op)
    ensures BuildsBack(Do(op))
  {
    match op
    case Binary(b) => match b { case _ => }
    case Unary(u) =>
    case _ =>
  }

  /** Opcode and operands determine the instruction. */
  lemma BuildBack(i: Instr)
    requires Encodable(i)
    ensures BuildsBack(i)
  {
    match i
    case Push(l) => PushBuildsBack(l);
    case Do(op) => DoBuildsBack(op);
    case _ =>
  }

  /** Wherever the encoding of an instruction stands in a blob, the interpreter decodes
      that instruction and goes on right behind it. */
  lemma DecodeEncoded(code: seq<Byte>, strs: seq<Byte>, pc: nat, i: Instr, tab: Table)
    requires Carries(code, pc, EncInstr(i, tab)) && Known(OperandOf(i), tab) && Encodable(i)
    requires TableOk(tab, strs) && |strs| < U32
    ensures Decode(code, strs, pc) == Instruction(i, pc + Width(i))
  {
    CarriesParts(code, pc, [OpcodeOf(i)], EncOperand(OperandOf(i), tab));
    ReadBackOperand(code, strs, pc + 1, OperandOf(i), tab);
    BuildBack(i);
  }
}
