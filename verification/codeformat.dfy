/** Which bytes are which instruction. */
module CodeFormat {
  import opened Bytes
  import opened Syntax
  import opened Machine
  import opened Encoding
  import opened Images
  import opened Words

  /** The instruction set by name. */
  datatype Mnemonic =
    | PUSH_INT | PUSH_FLOAT | PUSH_STRING | PUSH_CHAR | PUSH_BOOL | PUSH_NULL | PUSH_REGEX | PUSH_ENUM | PUSH_FUNC
    | POP | DUP | SWAP | LOAD | STORE
    | ADD | SUB | MUL | DIV | MOD | NEG | EQ | NE | LT | GT | LE | GE
    | NOT | BITWISE_AND | BITWISE_OR | BITWISE_XOR | BITWISE_NOT
    | JMP | JMP_IF_FALSE | JMP_IF_TRUE | CALL | RET | HALT
    | MAKE_ARRAY | MAKE_TUPLE | INDEX_GET | MEMBER_GET | UNPACK | CAST | ALLOC | FREE | CLONE_OBJECT
    | MAKE_SIMD | SIMD_TO_ARRAY | MAKE_MAP
    | PIPE_INSERT | PIPE_EXTRACT | CHANNEL_INSERT | CHANNEL_EXTRACT | DEFINE_ENUM | DEFINE_OBJECT
    | LOCK_CREATE | LOCK_ACQUIRE | LOCK_RELEASE | MONITOR_ENTER | MONITOR_EXIT | HINT_BRANCH

  /** Names are numbered in the order of their declaration. */
  function Opcode(m: Mnemonic): Byte {
    match m
    case PUSH_INT => 0 case PUSH_FLOAT => 1 case PUSH_STRING => 2 case PUSH_CHAR => 3 case PUSH_BOOL => 4
    case PUSH_NULL => 5 case PUSH_REGEX => 6 case PUSH_ENUM => 7 case PUSH_FUNC => 8 case POP => 9
    case DUP => 10 case SWAP => 11 case LOAD => 12 case STORE => 13 case ADD => 14 case SUB => 15
    case MUL => 16 case DIV => 17 case MOD => 18 case NEG => 19 case EQ => 20 case NE => 21 case LT => 22
    case GT => 23 case LE => 24 case GE => 25 case NOT => 26 case BITWISE_AND => 27 case BITWISE_OR => 28
    case BITWISE_XOR => 29 case BITWISE_NOT => 30 case JMP => 31 case JMP_IF_FALSE => 32
    case JMP_IF_TRUE => 33 case CALL => 34 case RET => 35 case HALT => 36 case MAKE_ARRAY => 37
    case MAKE_TUPLE => 38 case INDEX_GET => 39 case MEMBER_GET => 40 case UNPACK => 41 case CAST => 42
    case ALLOC => 43 case FREE => 44 case CLONE_OBJECT => 45 case MAKE_SIMD => 46 case SIMD_TO_ARRAY => 47
    case MAKE_MAP => 48 case PIPE_INSERT => 49 case PIPE_EXTRACT => 50 case CHANNEL_INSERT => 51
    case CHANNEL_EXTRACT => 52 case DEFINE_ENUM => 53 case DEFINE_OBJECT => 54 case LOCK_CREATE => 55
    case LOCK_ACQUIRE => 56 case LOCK_RELEASE => 57 case MONITOR_ENTER => 58 case MONITOR_EXIT => 59
    case HINT_BRANCH => 60
  }

  function BinaryName(op: BinOp): Mnemonic {
    match op
    case Add => ADD case Sub => SUB case Mul => MUL case Div => DIV case Mod => MOD
    case Eq => EQ case Ne => NE case Lt => LT case Gt => GT case Le => LE case Ge => GE
    case BitAnd => BITWISE_AND case BitOr => BITWISE_OR case BitXor => BITWISE_XOR
  }

  function OperationName(op: Op): Mnemonic {
    match op
    case Binary(b) => BinaryName(b)
    case Unary(Neg) => NEG
    case Unary(Not) => NOT
    case Unary(BitNot) => BITWISE_NOT
    case MemberGet(_) => MEMBER_GET
    case IndexGet => INDEX_GET
    case MakeArray(_) => MAKE_ARRAY
    case MakeTuple(_) => MAKE_TUPLE
    case MakeMap(_) => MAKE_MAP
    case Cast(_) => CAST
    case Alloc(_) => ALLOC
    case MakeSimd => MAKE_SIMD
    case CloneObject => CLONE_OBJECT
  }

  function LiteralName(l: Lit): Mnemonic {
    match l
    case IntLit(_) => PUSH_INT case FloatLit(_) => PUSH_FLOAT case StrLit(_) => PUSH_STRING
    case CharLit(_) => PUSH_CHAR case BoolLit(_) => PUSH_BOOL case NullLit => PUSH_NULL
    case RegexLit(_) => PUSH_REGEX case EnumLit(_, _) => PUSH_ENUM case FuncLit(_) => PUSH_FUNC
  }

  function NameOf(i: Instr): Mnemonic {
    match i
    case Push(l) => LiteralName(l)
    case Pop => POP case Dup => DUP case Swap => SWAP
    case Load(_) => LOAD case Store(_) => STORE
    case Do(op) => OperationName(op)
    case Jmp(_) => JMP case JmpIfFalse(_) => JMP_IF_FALSE case JmpIfTrue(_) => JMP_IF_TRUE
    case CallN(_) => CALL case Ret => RET case Halt => HALT
    case Unpack(_) => UNPACK
    case MonitorEnter(_) => MONITOR_ENTER case MonitorExit => MONITOR_EXIT case HintBranch(_) => HINT_BRANCH
  }

  lemma NumberedLiteral(l: Lit)
    ensures LitOpcode(l) == Opcode(LiteralName(l))
  {
  }

  lemma NumberedOperation(op: Op)
    ensures OpOpcode(op) == Opcode(OperationName(op))
  {
  }

  lemma Numbered(i: Instr)
    ensures OpcodeOf(i) == Opcode(NameOf(i))
  {
    hide LitOpcode, OpOpcode, LiteralName, OperationName;
    match i
    case Push(l) => NumberedLiteral(l);
    case Do(op) => NumberedOperation(op);
    case _ =>
  }

  // ---- operands ----

  /** A reference to a text: where it begins in the string table, and its length. */
  predicate TextRefAt(code: seq<Byte>, strs: seq<Byte>, p: nat, t: string) {
    p + 8 <= |code| && NameIs(strs, U32At(code, p), U32At(code, p + 4), t)
  }

  lemma TextRefExactly(code: seq<Byte>, strs: seq<Byte>, p: nat, t: string)
    ensures TextRefAt(code, strs, p, t) <==> ReadText(code, strs, p).Got? && ReadText(code, strs, p).value == t
    ensures TextRefAt(code, strs, p, t) ==> ReadText(code, strs, p).next == p + 8
  {
    hide U32At, NameIs;
    Read32(code, p);
    Read32(code, p + 4);
    if p + 8 <= |code| {
      var at, n := U32At(code, p), U32At(code, p + 4);
      if at + n <= |strs| {
        TextIs(strs, at, n);
        NameOnce(strs, at, n, t, ToText(strs[at..at + n]));
      } else {
        NameInside(strs, at, n, t);
      }
    }
  }

  lemma NameInside(strs: seq<Byte>, at: nat, n: nat, t: string)
    ensures NameIs(strs, at, n, t) ==> at + n <= |strs|
  {
  }

  lemma NameOnce(strs: seq<Byte>, at: nat, n: nat, t: string, u: string)
    requires NameIs(strs, at, n, u)
    ensures NameIs(strs, at, n, t) <==> t == u
  {
    if NameIs(strs, at, n, t) {
      assert forall i | 0 <= i < n :: t[i] as int == Octet(strs, at + i) == u[i] as int;
    }
  }

  /** A type: its kind, and what its kind needs, one behind the other. */
  ghost predicate TypeAt(code: seq<Byte>, strs: seq<Byte>, p: nat, t: TypeNode, n: nat)
    decreases t, 1
  {
    && p < |code|
    && match t
       case Primitive(k) => code[p] == 0 && n == p + 2 <= |code| && code[p + 1] == k
       case Named(name) => code[p] == 1 && TextRefAt(code, strs, p + 1, name) && n == p + 9
       case ArrayOf(e) => code[p] == 2 && TypeAt(code, strs, p + 1, e, n)
       case TupleOf(es) => code[p] == 3 && p + 5 <= |code| && U32At(code, p + 1) == |es|
         && TypesAt(code, strs, p + 5, es, n)
       case MapOf(k, v) =>
         code[p] == 4 && exists mid: nat :: TypeAt(code, strs, p + 1, k, mid) && TypeAt(code, strs, mid, v, n)
       case LambdaOf(ps, ret) =>
         && code[p] == 5 && p + 5 <= |code| && U32At(code, p + 1) == |ps|
         && exists mid: nat :: TypesAt(code, strs, p + 5, ps, mid) && TypeAt(code, strs, mid, ret, n)
  }

  ghost predicate TypesAt(code: seq<Byte>, strs: seq<Byte>, p: nat, ts: seq<TypeNode>, n: nat)
    decreases ts, 0
  {
    if ts == [] then n == p
    else exists mid: nat :: TypeAt(code, strs, p, ts[0], mid) && TypesAt(code, strs, mid, ts[1..], n)
  }

  lemma TypesGoOn(code: seq<Byte>, strs: seq<Byte>, p: nat, ts: seq<TypeNode>, n: nat) returns (mid: nat)
    requires ts != [] && TypesAt(code, strs, p, ts, n)
    ensures TypeAt(code, strs, p, ts[0], mid) && TypesAt(code, strs, mid, ts[1..], n)
  {
    mid :| TypeAt(code, strs, p, ts[0], mid) && TypesAt(code, strs, mid, ts[1..], n);
  }

  lemma {:induction false} TypesCounted(code: seq<Byte>, strs: seq<Byte>, p: nat, n: nat)
    requires p <= |code|
    ensures ReadTypes(code, strs, p, n).Got? ==> |ReadTypes(code, strs, p, n).value| == n
    decreases n
  {
    hide ReadType;
    if n > 0 && ReadType(code, strs, p).Got? {
      TypesCounted(code, strs, ReadType(code, strs, p).next, n - 1);
    }
  }

  lemma {:induction false} TypeExactly(code: seq<Byte>, strs: seq<Byte>, p: nat, t: TypeNode, n: nat)
    ensures ReadType(code, strs, p) == Read.Got(t, n) <==> TypeAt(code, strs, p, t, n)
    decreases t, 1
  {
    match t
    case Primitive(_) => PlainTypeExactly(code, strs, p, t, n);
    case Named(_) => PlainTypeExactly(code, strs, p, t, n);
    case ArrayOf(e) => TypeExactly(code, strs, p + 1, e, n); ArrayExactly(code, strs, p, e, n);
    case TupleOf(es) => TupleExactly(code, strs, p, es, n);
    case MapOf(k, v) => MapExactly(code, strs, p, k, v, n);
    case LambdaOf(ps, ret) => LambdaExactly(code, strs, p, ps, ret, n);
  }

  lemma PlainTypeExactly(code: seq<Byte>, strs: seq<Byte>, p: nat, t: TypeNode, n: nat)
    requires t.Primitive? || t.Named?
    ensures ReadType(code, strs, p) == Read.Got(t, n) <==> TypeAt(code, strs, p, t, n)
  {
    hide TextRefAt, ReadText, ReadLE, ReadTypes;
    if t.Named? {
      TextRefExactly(code, strs, p + 1, t.name);
    }
  }

  lemma ArrayExactly(code: seq<Byte>, strs: seq<Byte>, p: nat, e: TypeNode, n: nat)
    requires ReadType(code, strs, p + 1) == Read.Got(e, n) <==> TypeAt(code, strs, p + 1, e, n)
    ensures ReadType(code, strs, p) == Read.Got(ArrayOf(e), n) <==> TypeAt(code, strs, p, ArrayOf(e), n)
  {
    hide TextRefAt, ReadText, ReadLE, ReadTypes;
  }

  lemma {:induction false} TupleExactly(code: seq<Byte>, strs: seq<Byte>, p: nat, es: seq<TypeNode>, n: nat)
    ensures ReadType(code, strs, p) == Read.Got(TupleOf(es), n) <==> TypeAt(code, strs, p, TupleOf(es), n)
    decreases es, 1
  {
    hide TextRefAt, ReadText, ReadLE, ReadTypes, U32At, TypesAt;
    Read32(code, p + 1);
    if p + 5 <= |code| {
      TypesCounted(code, strs, p + 5, U32At(code, p + 1));
      TypesExactly(code, strs, p + 5, es, n);
    }
  }

  lemma {:induction false} TypesExactly(code: seq<Byte>, strs: seq<Byte>, p: nat, ts: seq<TypeNode>, n: nat)
    requires p <= |code|
    ensures ReadTypes(code, strs, p, |ts|) == Read.Got(ts, n) <==> TypesAt(code, strs, p, ts, n)
    decreases ts, 0
  {
    hide ReadType;
    if ts != [] {
      if ReadType(code, strs, p).Got? {
        var mid := ReadType(code, strs, p).next;
        TypeExactly(code, strs, p, ts[0], mid);
        TypesExactly(code, strs, mid, ts[1..], n);
        assert ts == [ts[0]] + ts[1..];
      }
      if TypesAt(code, strs, p, ts, n) {
        var mid := TypesGoOn(code, strs, p, ts, n);
        TypeExactly(code, strs, p, ts[0], mid);
      }
    }
  }

  lemma {:induction false} MapExactly(code: seq<Byte>, strs: seq<Byte>, p: nat, k: TypeNode, v: TypeNode, n: nat)
    ensures ReadType(code, strs, p) == Read.Got(MapOf(k, v), n) <==> TypeAt(code, strs, p, MapOf(k, v), n)
    decreases MapOf(k, v), 0
  {
    hide TextRefAt, ReadText, ReadLE, ReadTypes;
    if ReadType(code, strs, p + 1).Got? {
      var mid := ReadType(code, strs, p + 1).next;
      TypeExactly(code, strs, p + 1, k, mid);
      TypeExactly(code, strs, mid, v, n);
    }
    if p < |code| && TypeAt(code, strs, p, MapOf(k, v), n) {
      var mid := MapGoesOn(code, strs, p, k, v, n);
      TypeExactly(code, strs, p + 1, k, mid);
    }
  }

  lemma MapGoesOn(code: seq<Byte>, strs: seq<Byte>, p: nat, k: TypeNode, v: TypeNode, n: nat) returns (mid: nat)
    requires TypeAt(code, strs, p, MapOf(k, v), n)
    ensures TypeAt(code, strs, p + 1, k, mid) && TypeAt(code, strs, mid, v, n)
  {
    mid :| TypeAt(code, strs, p + 1, k, mid) && TypeAt(code, strs, mid, v, n);
  }

  lemma {:induction false} LambdaExactly(code: seq<Byte>, strs: seq<Byte>, p: nat, ps: seq<TypeNode>, ret: TypeNode,
      n: nat)
    ensures ReadType(code, strs, p) == Read.Got(LambdaOf(ps, ret), n) <==> TypeAt(code, strs, p, LambdaOf(ps, ret), n)
    decreases LambdaOf(ps, ret), 0
  {
    hide TextRefAt, ReadText, ReadLE, ReadTypes, U32At;
    Read32(code, p + 1);
    if p + 5 <= |code| {
      var count := U32At(code, p + 1);
      TypesCounted(code, strs, p + 5, count);
      if ReadTypes(code, strs, p + 5, count).Got? {
        var mid := ReadTypes(code, strs, p + 5, count).next;
        TypesExactly(code, strs, p + 5, ps, mid);
        TypeExactly(code, strs, mid, ret, n);
      }
      if TypeAt(code, strs, p, LambdaOf(ps, ret), n) {
        var mid := LambdaGoesOn(code, strs, p, ps, ret, n);
        TypesExactly(code, strs, p + 5, ps, mid);
      }
    }
  }

  lemma LambdaGoesOn(code: seq<Byte>, strs: seq<Byte>, p: nat, ps: seq<TypeNode>, ret: TypeNode, n: nat)
      returns (mid: nat)
    requires TypeAt(code, strs, p, LambdaOf(ps, ret), n)
    ensures TypesAt(code, strs, p + 5, ps, mid) && TypeAt(code, strs, mid, ret, n)
  {
    mid :| TypesAt(code, strs, p + 5, ps, mid) && TypeAt(code, strs, mid, ret, n);
  }

  /** The operand at `p`, and that `n` is behind it. */
  ghost predicate OperandAt(code: seq<Byte>, strs: seq<Byte>, p: nat, o: Operand, n: nat) {
    match o
    case NoOperand => n == p <= |code|
    case ByteOperand(b) => n == p + 1 <= |code| && code[p] == b
    case WordOperand(w) => n == p + 4 <= |code| && U32At(code, p) == w
    case LongOperand(i) =>
      n == p + 8 <= |code| && IsI64(i) && U64At(code, p) == (if i < 0 then 0x1_0000_0000_0000_0000 + i else i)
    case DoubleOperand(bits) => n == p + 8 <= |code| && U64At(code, p) == bits
    case TextOperand(t) => TextRefAt(code, strs, p, t) && n == p + 8
    case TextsOperand(t, u) => TextRefAt(code, strs, p, t) && TextRefAt(code, strs, p + 8, u) && n == p + 16
    case TypeOperand(t) => TypeAt(code, strs, p, t, n)
  }

  predicate OfShape(shape: Shape, o: Operand) {
    match shape
    case NoneShape => o.NoOperand?
    case U8Shape => o.ByteOperand?
    case U32Shape => o.WordOperand?
    case I64Shape => o.LongOperand?
    case F64Shape => o.DoubleOperand?
    case StrShape => o.TextOperand?
    case Str2Shape => o.TextsOperand?
    case TypeShape => o.TypeOperand?
    case UnknownShape => false
  }

  lemma OperandExactly(shape: Shape, code: seq<Byte>, strs: seq<Byte>, p: nat, o: Operand, n: nat)
    requires p <= |code|
    ensures ReadOperand(shape, code, strs, p) == Read.Got(o, n) <==> OfShape(shape, o) && OperandAt(code, strs, p, o, n)
  {
    hide TextRefAt, ReadText, ReadLE, ReadType, TypeAt, U32At, U64At;
    match o
    case NoOperand =>
    case ByteOperand(_) =>
    case WordOperand(_) => Read32(code, p);
    case LongOperand(_) => Read64(code, p);
    case DoubleOperand(_) => Read64(code, p);
    case TextOperand(t) => TextRefExactly(code, strs, p, t);
    case TextsOperand(t, u) => TextRefExactly(code, strs, p, t); TextRefExactly(code, strs, p + 8, u);
    case TypeOperand(t) => TypeExactly(code, strs, p, t, n);
  }

  // ---- instructions ----

  /** What an instruction takes as its operand. Of a flag every byte but 0 is true. */
  predicate Takes(i: Instr, o: Operand) {
    match i
    case Push(IntLit(n)) => o == LongOperand(n)
    case Push(FloatLit(bits)) => o == DoubleOperand(bits)
    case Push(StrLit(s)) => o == TextOperand(s)
    case Push(CharLit(c)) => o.ByteOperand? && o.byte == c
    case Push(BoolLit(b)) => o.ByteOperand? && b == (o.byte != 0)
    case Push(RegexLit(p)) => o == TextOperand(p)
    case Push(EnumLit(e, m)) => o == TextsOperand(e, m)
    case Push(FuncLit(f)) => o == TextOperand(f)
    case Load(s) => o == TextOperand(s)
    case Store(s) => o == TextOperand(s)
    case Do(MemberGet(s)) => o == TextOperand(s)
    case Do(MakeArray(n)) => o == WordOperand(n)
    case Do(MakeTuple(n)) => o == WordOperand(n)
    case Do(MakeMap(n)) => o == WordOperand(n)
    case Do(Alloc(n)) => o == WordOperand(n)
    case Do(Cast(t)) => o == TypeOperand(t)
    case Jmp(t) => o == WordOperand(t)
    case JmpIfFalse(t) => o == WordOperand(t)
    case JmpIfTrue(t) => o == WordOperand(t)
    case MonitorEnter(t) => o == WordOperand(t)
    case CallN(n) => o.ByteOperand? && o.byte == n
    case Unpack(n) => o.ByteOperand? && o.byte == n
    case HintBranch(b) => o.ByteOperand? && b == (o.byte != 0)
    case _ => o == NoOperand
  }

  /** The instruction at `pc`, and that the next one is at `next`. */
  ghost predicate InstrAt(code: seq<Byte>, strs: seq<Byte>, pc: nat, i: Instr, next: nat) {
    && pc < |code| && code[pc] == Opcode(NameOf(i))
    && exists o :: Takes(i, o) && OperandAt(code, strs, pc + 1, o, next)
  }

  lemma BuiltFrom(op: Byte, o: Operand, i: Instr)
    requires OfShape(ShapeOf(op), o) && Build(op, o) == Some(i)
    ensures op == OpcodeOf(i) && Takes(i, o)
  {
  }

  lemma BuiltBack(o: Operand, i: Instr)
    requires Takes(i, o)
    ensures OfShape(ShapeOf(OpcodeOf(i)), o) && Build(OpcodeOf(i), o) == Some(i)
  {
  }

  lemma DecodeExactly(code: seq<Byte>, strs: seq<Byte>, pc: nat, i: Instr, next: nat)
    ensures Decode(code, strs, pc) == Instruction(i, next) <==> InstrAt(code, strs, pc, i, next)
  {
    hide ReadOperand, Build, ShapeOf, OfShape, Takes, OperandAt, OpcodeOf, NameOf, Opcode;
    Numbered(i);
    if pc < |code| {
      var op := code[pc];
      if Decode(code, strs, pc) == Instruction(i, next) {
        var o := ReadOperand(ShapeOf(op), code, strs, pc + 1).value;
        OperandExactly(ShapeOf(op), code, strs, pc + 1, o, next);
        BuiltFrom(op, o, i);
      }
      if InstrAt(code, strs, pc, i, next) {
        var o :| Takes(i, o) && OperandAt(code, strs, pc + 1, o, next);
        BuiltBack(o, i);
        OperandExactly(ShapeOf(op), code, strs, pc + 1, o, next);
      }
    }
  }

  // ---- blobs ----

  predicate AnyTextAt(code: seq<Byte>, strs: seq<Byte>, p: nat) {
    p + 8 <= |code| && U32At(code, p) + U32At(code, p + 4) <= |strs|
  }

  predicate AllTextsAt(code: seq<Byte>, strs: seq<Byte>, p: nat, n: nat) {
    forall i: nat | i < n :: AnyTextAt(code, strs, p + 8 * i)
  }

  /** An instruction this model gives no meaning to: a declaration lists its members, most
      others name something. */
  predicate ForeignAt(code: seq<Byte>, strs: seq<Byte>, pc: nat, next: nat) {
    && pc < |code|
    && if code[pc] == Opcode(SIMD_TO_ARRAY) then next == pc + 1
       else if code[pc] == Opcode(DEFINE_ENUM) || code[pc] == Opcode(DEFINE_OBJECT) then
         && AnyTextAt(code, strs, pc + 1) && pc + 13 <= |code|
         && AllTextsAt(code, strs, pc + 13, U32At(code, pc + 9)) && next == pc + 13 + 8 * U32At(code, pc + 9)
       else
         && code[pc] in {Opcode(FREE), Opcode(PIPE_INSERT), Opcode(PIPE_EXTRACT), Opcode(CHANNEL_INSERT),
                         Opcode(CHANNEL_EXTRACT), Opcode(LOCK_CREATE), Opcode(LOCK_ACQUIRE), Opcode(LOCK_RELEASE)}
         && AnyTextAt(code, strs, pc + 1) && next == pc + 9
  }

  ghost predicate StepAt(code: seq<Byte>, strs: seq<Byte>, pc: nat, next: nat) {
    (exists i :: InstrAt(code, strs, pc, i, next)) || ForeignAt(code, strs, pc, next)
  }

  /** From `pc` on the blob is instructions, one behind the other, to its last byte. */
  ghost predicate CoveredFrom(code: seq<Byte>, strs: seq<Byte>, pc: nat)
    decreases |code| - pc
  {
    pc == |code|
    || exists next: nat :: pc < next <= |code| && StepAt(code, strs, pc, next) && CoveredFrom(code, strs, next)
  }

  lemma AnyTextExactly(code: seq<Byte>, strs: seq<Byte>, p: nat)
    ensures ReadText(code, strs, p).Got? <==> AnyTextAt(code, strs, p)
  {
    hide U32At;
    Read32(code, p);
    Read32(code, p + 4);
  }

  lemma {:induction false} AllTextsExactly(code: seq<Byte>, strs: seq<Byte>, p: nat, n: nat)
    ensures SkipTexts(code, strs, p, n).Some? <==> AllTextsAt(code, strs, p, n)
    decreases n
  {
    hide ReadText, AnyTextAt;
    if n > 0 {
      AnyTextExactly(code, strs, p);
      AllTextsExactly(code, strs, p + 8, n - 1);
      if AllTextsAt(code, strs, p, n) {
        assert AnyTextAt(code, strs, p + 8 * 0);
        forall i: nat | i < n - 1
          ensures AnyTextAt(code, strs, p + 8 + 8 * i)
        {
          assert AnyTextAt(code, strs, p + 8 * (i + 1));
        }
      }
      if AnyTextAt(code, strs, p) && AllTextsAt(code, strs, p + 8, n - 1) {
        forall i: nat | i < n
          ensures AnyTextAt(code, strs, p + 8 * i)
        {
          if i > 0 {
            assert AnyTextAt(code, strs, p + 8 + 8 * (i - 1));
          }
        }
      }
    }
  }

  lemma OtherNumbers()
    ensures Opcode(FREE) == 44 && Opcode(SIMD_TO_ARRAY) == 47
  {
  }

  lemma PipeNumbers()
    ensures Opcode(PIPE_INSERT) == 49 && Opcode(PIPE_EXTRACT) == 50
  {
  }

  lemma ChannelNumbers()
    ensures Opcode(CHANNEL_INSERT) == 51 && Opcode(CHANNEL_EXTRACT) == 52
  {
  }

  lemma DeclarationNumbers()
    ensures Opcode(DEFINE_ENUM) == 53 && Opcode(DEFINE_OBJECT) == 54
  {
  }

  lemma LockNumbers()
    ensures Opcode(LOCK_CREATE) == 55 && Opcode(LOCK_ACQUIRE) == 56 && Opcode(LOCK_RELEASE) == 57
  {
  }

  lemma ForeignNumbers()
    ensures Opcode(FREE) == 44 && Opcode(SIMD_TO_ARRAY) == 47
    ensures Opcode(PIPE_INSERT) == 49 && Opcode(PIPE_EXTRACT) == 50
    ensures Opcode(CHANNEL_INSERT) == 51 && Opcode(CHANNEL_EXTRACT) == 52
    ensures Opcode(DEFINE_ENUM) == 53 && Opcode(DEFINE_OBJECT) == 54
    ensures Opcode(LOCK_CREATE) == 55 && Opcode(LOCK_ACQUIRE) == 56 && Opcode(LOCK_RELEASE) == 57
  {
    hide Opcode;
    OtherNumbers();
    PipeNumbers();
    ChannelNumbers();
    DeclarationNumbers();
    LockNumbers();
  }

  lemma ForeignMalformed(code: seq<Byte>, strs: seq<Byte>, pc: nat)
    requires pc < |code| && (code[pc] == 44 || code[pc] == 47 || 49 <= code[pc] <= 57)
    ensures !Decode(code, strs, pc).Instruction?
  {
    hide ReadText, ReadLE, ReadType, Build;
    assert ShapeOf(code[pc]) == UnknownShape;
  }

  lemma DeclarationExactly(code: seq<Byte>, strs: seq<Byte>, pc: nat, next: nat)
    requires pc < |code| && (code[pc] == 53 || code[pc] == 54)
    ensures SkipForeign(code, strs, pc) == Some(next) <==> ForeignAt(code, strs, pc, next)
  {
    hide ReadText, AnyTextAt, AllTextsAt, U32At, ReadLE, Opcode;
    ForeignNumbers();
    AnyTextExactly(code, strs, pc + 1);
    Read32(code, pc + 9);
    if pc + 13 <= |code| {
      AllTextsExactly(code, strs, pc + 13, U32At(code, pc + 9));
    }
  }

  lemma ForeignExactly(code: seq<Byte>, strs: seq<Byte>, pc: nat, next: nat)
    requires pc < |code|
    ensures SkipForeign(code, strs, pc) == Some(next) <==> ForeignAt(code, strs, pc, next)
    ensures ForeignAt(code, strs, pc, next) ==> !Decode(code, strs, pc).Instruction?
  {
    hide ReadText, AnyTextAt, AllTextsAt, U32At, ReadLE, Opcode, Decode;
    ForeignNumbers();
    if code[pc] == 44 || code[pc] == 47 || 49 <= code[pc] <= 57 {
      ForeignMalformed(code, strs, pc);
    }
    if code[pc] == 53 || code[pc] == 54 {
      DeclarationExactly(code, strs, pc, next);
    } else {
      AnyTextExactly(code, strs, pc + 1);
    }
  }

  lemma StepExactly(code: seq<Byte>, strs: seq<Byte>, pc: nat, next: nat)
    requires pc < |code|
    ensures Behind(code, strs, pc) == Some(next) <==> StepAt(code, strs, pc, next)
  {
    hide Decode, SkipForeign, InstrAt, ForeignAt;
    ForeignExactly(code, strs, pc, next);
    if Decode(code, strs, pc).Instruction? {
      DecodeExactly(code, strs, pc, Decode(code, strs, pc).instr, Decode(code, strs, pc).next);
    }
    if i :| InstrAt(code, strs, pc, i, next) {
      DecodeExactly(code, strs, pc, i, next);
    }
  }

  /** The walk over a blob succeeds exactly if the blob is covered by instructions. */
  lemma {:induction false} WalkExactly(code: seq<Byte>, strs: seq<Byte>, pc: nat)
    ensures Walk(code, strs, pc) <==> CoveredFrom(code, strs, pc)
    decreases |code| - pc
  {
    hide Behind, StepAt;
    if pc < |code| {
      var r := Behind(code, strs, pc);
      if r.Some? && pc < r.value <= |code| {
        StepExactly(code, strs, pc, r.value);
        WalkExactly(code, strs, r.value);
      }
      if CoveredFrom(code, strs, pc) {
        var next: nat :| pc < next <= |code| && StepAt(code, strs, pc, next) && CoveredFrom(code, strs, next);
        StepExactly(code, strs, pc, next);
      }
    }
  }
}
