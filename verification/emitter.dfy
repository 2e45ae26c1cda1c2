/** The code generator itself: a growing string table, an append-only byte buffer with
    patchable jump operands, and the walk over the tree that drives them. */
module Emitter {
  import opened Bytes
  import opened Syntax
  import opened Machine
  import opened Layout
  import opened Encoding
  import opened Listing
  import opened Blobs
  import opened Lowering
  import opened DebugMaps

  /** Deduplicating table of every name and literal of a module. */
  class StringTable {
    var data: seq<Byte>
    var interned: Table

    ghost predicate Valid()
      reads this
    {
      TableOk(interned, data)
    }

    constructor ()
      ensures Valid() && data == [] && interned == map[]
    {
      data, interned := [], map[];
    }

    /** The offset of `text`; earlier references stay valid. */
    method Intern(text: string) returns (offset: nat)
      requires Valid()
      modifies this
      ensures Valid() && Grows(old(interned), interned) && old(data) <= data
      ensures text in interned && offset == interned[text] && interned.Keys == old(interned.Keys) + {text}
      ensures text in old(interned) ==> data == old(data) && interned == old(interned)
      ensures |data| <= |old(data)| + |text|
    {
      if text in interned {
        return interned[text];
      }
      offset := |data|;
      ghost var tab, was := interned, data;
      data := data + ToBytes(text);
      interned := interned[text := offset];
      TableGrows(tab, was, text);
    }
  }

  lemma TableGrows(tab: Table, data: seq<Byte>, text: string)
    requires TableOk(tab, data) && text !in tab
    ensures TableOk(tab[text := |data|], data + ToBytes(text))
  {
    var tab1, data1 := tab[text := |data|], data + ToBytes(text);
    forall t | t in tab1
      ensures Stored(t, tab1, data1)
    {
      if t != text {
        assert Stored(t, tab, data);
        assert data1[tab[t]..tab[t] + |t|] == data[tab[t]..tab[t] + |t|];
      }
    }
  }

  /** Append-only buffer with little-endian operands and back-patching. */
  class CodeBuilder {
    var code: seq<Byte>

    constructor ()
      ensures code == []
    {
      code := [];
    }

    /** The offset of the next instruction. */
    function Here(): nat
      reads this
    {
      |code|
    }

    method U8(value: Byte)
      modifies this
      ensures code == old(code) + [value]
    {
      code := code + [value];
    }

    method U32(value: nat)
      modifies this
      ensures code == old(code) + LE(value, 4)
    {
      code := code + LE(value, 4);
    }

    method U64(value: nat)
      modifies this
      ensures code == old(code) + LE(value, 8)
    {
      code := code + LE(value, 8);
    }

    method Str(offset: nat, length: nat)
      modifies this
      ensures code == old(code) + (LE(offset, 4) + LE(length, 4))
    {
      U32(offset);
      U32(length);
    }

    /** Emit an opcode with a placeholder target; the operand's offset is for `Patch`. */
    method Jump(opcode: Byte) returns (operandAt: nat)
      modifies this
      ensures code == old(code) + ([opcode] + LE(0, 4)) && operandAt == |old(code)| + 1
    {
      U8(opcode);
      operandAt := Here();
      U32(0);
    }

    /** Overwrite the operand at `operandAt`. */
    method Patch(operandAt: nat, target: nat)
      requires operandAt + 4 <= |code|
      modifies this
      ensures code == old(code)[..operandAt] + LE(target, 4) + old(code)[operandAt + 4..]
    {
      code := code[..operandAt] + LE(target, 4) + code[operandAt + 4..];
    }
  }

  // ---- what can be encoded ----

  predicate FitsExpr(e: Expr)
    decreases e, 1
  {
    match e
    case Literal(l) => Encodable(Push(l))
    case Ident(name) => TextFits(name)
    case Apply(op, operands) => Encodable(Do(op)) && FitsExprs(operands)
    case Logical(_, left, right) => FitsExpr(left) && FitsExpr(right)
    case Call(callee, args) => FitsExpr(callee) && FitsExprs(args) && !HintCall(callee, args)
  }

  predicate FitsExprs(es: seq<Expr>)
    decreases es, 0
  {
    forall e | e in es :: FitsExpr(e)
  }

  predicate FitsTargets(ts: seq<Target>) {
    forall t | t in ts :: t.To? ==> TextFits(t.name)
  }

  /** Literals, names and counts are within the ranges of their machine types. Lists
      that are too long for their count byte are reported by the generator instead. */
  predicate FitsStmt(s: Stmt)
    decreases s, 1
  {
    match s
    case Assign(ts, _, value) => FitsTargets(ts) && FitsExpr(value)
    case ExprStmt(e) => FitsExpr(e)
    case Return(e) => FitsExpr(e)
    case Break => true
    case Block(body) => FitsBlock(body)
    case If(chain) => FitsChain(chain)
    case Loop(cond, body) => (cond.Some? ==> FitsExpr(cond.value)) && FitsBlock(body)
    case Match(scrutinee, cases) => FitsExpr(scrutinee) && FitsCases(cases)
    case Monitor(body, trap, handler) => FitsBlock(body) && TextFits(trap) && FitsBlock(handler)
  }

  predicate FitsBlock(ss: seq<Stmt>)
    decreases ss, 0
  {
    forall s | s in ss :: FitsStmt(s)
  }

  predicate FitsChain(ch: Chain)
    decreases ch, 0
  {
    match ch
    case Else(els) => FitsBlock(els)
    case Elif(cond, _, body, rest) => FitsExpr(cond) && FitsBlock(body) && FitsChain(rest)
  }

  predicate FitsCases(cases: seq<Case>)
    decreases cases, 0
  {
    forall arm | arm in cases :: Encodable(Push(EnumLit(arm.enumName, arm.member))) && FitsBlock(arm.body)
  }

  predicate FitsConsts(k: Consts) {
    forall n | n in k :: IsI64(k[n])
  }

  // ---- how much text there is ----

  function TypeText(t: TypeNode): nat
    decreases t, 1
  {
    match t
    case Primitive(_) => 0
    case Named(n) => |n|
    case ArrayOf(e) => TypeText(e)
    case TupleOf(es) => TypesText(es)
    case MapOf(k, v) => TypeText(k) + TypeText(v)
    case LambdaOf(ps, ret) => TypesText(ps) + TypeText(ret)
  }

  function TypesText(ts: seq<TypeNode>): nat
    decreases ts, 0
  {
    if ts == [] then 0 else TypesText(ts[..|ts| - 1]) + TypeText(ts[|ts| - 1])
  }

  lemma TypesTextStep(ts: seq<TypeNode>, i: nat)
    requires i < |ts|
    ensures TypesText(ts[..i + 1]) == TypesText(ts[..i]) + TypeText(ts[i])
  {
    assert ts[..i + 1][..i] == ts[..i];
  }

  function OperandText(o: Operand): nat {
    match o
    case TextOperand(s) => |s|
    case TextsOperand(a, b) => |a| + |b|
    case TypeOperand(t) => TypeText(t)
    case _ => 0
  }

  /** The text of all names and literals in a listing. */
  function ListText(list: seq<Instr>): nat {
    if list == [] then 0 else ListText(list[..|list| - 1]) + OperandText(OperandOf(list[|list| - 1]))
  }

  lemma ListTextStep(list: seq<Instr>, i: Instr)
    ensures ListText(list + [i]) == ListText(list) + OperandText(OperandOf(i))
  {
    assert (list + [i])[..|list|] == list;
  }

  // ---- facts about growing code ----

  predicate Holds(m: map<nat, Instr>, pc: int, i: Instr) {
    pc in m && m[pc] == i
  }

  /** Nothing recorded is lost. */
  ghost predicate Grown(m: map<nat, Instr>, m1: map<nat, Instr>) {
    forall pc, i {:trigger Holds(m, pc, i)} :: Holds(m, pc, i) ==> Holds(m1, pc, i)
  }

  /** What has been recorded in one blob is still there in a later one. */
  ghost predicate Later(a: Blob, b: Blob) {
    Grown(a.instrs, b.instrs) && Grows(a.tab, b.tab) && Bounds(a, b)
    && |a.code| <= |b.code| && Recorded(a.anchors, |a.code|, b.anchors)
  }

  lemma LaterSelf(a: Blob)
    ensures Later(a, a)
  {
  }

  /** What has been reported does not matter. */
  lemma LaterReported(a: Blob, b: Blob, failed: bool, owed: nat, failed1: bool, owed1: nat)
    requires Later(a.(failed := failed, owed := owed), b)
    ensures Later(a, b.(failed := failed1, owed := owed1))
  {
    forall pc | Boundary(a, pc)
      ensures Boundary(b.(failed := failed1, owed := owed1), pc)
    {
      assert Boundary(a.(failed := failed, owed := owed), pc) && Boundary(b, pc);
    }
  }

  lemma LaterTwice(a: Blob, b: Blob, c: Blob)
    requires Later(a, b) && Later(b, c)
    ensures Later(a, c)
  {
    RecordedTwice(a.anchors, |a.code|, b.anchors, |b.code|, c.anchors);
  }

  /** The jump in front of `operandAt` is to go to `target`. */
  ghost predicate Waits(m: map<nat, Instr>, operandAt: nat, target: nat) {
    && operandAt > 0 && operandAt - 1 in m
    && IsJump(m[operandAt - 1]) && TargetOf(m[operandAt - 1]) == target
  }

  lemma WaitsStill(m: map<nat, Instr>, m1: map<nat, Instr>, operandAt: nat, target: nat)
    requires Waits(m, operandAt, target) && Grown(m, m1)
    ensures Waits(m1, operandAt, target)
  {
    assert Holds(m, operandAt - 1, m[operandAt - 1]);
  }

  lemma LaterRecorded(a: Blob, b: Blob)
    requires Later(a, b)
    ensures Recorded(a.anchors, |a.code|, b.anchors)
  {
  }

  lemma LaterBoundary(a: Blob, b: Blob, pc: nat)
    requires Later(a, b) && Boundary(a, pc)
    ensures Boundary(b, pc)
  {
  }

  lemma LaterGrown(a: Blob, b: Blob)
    requires Later(a, b)
    ensures Grown(a.instrs, b.instrs) && |a.code| <= |b.code|
  {
  }

  lemma WaitsLater(a: Blob, b: Blob, operandAt: nat, target: nat)
    requires Waits(a.instrs, operandAt, target) && Later(a, b)
    ensures Waits(b.instrs, operandAt, target)
  {
    WaitsStill(a.instrs, b.instrs, operandAt, target);
  }

  /** The jumps at operand offsets `sites`, in increasing order, are all to go to `target`. */
  ghost predicate Awaiting(sites: seq<nat>, m: map<nat, Instr>, from: nat, to: nat, target: nat) {
    && (forall j {:trigger sites[j]} | 0 <= j < |sites| :: from < sites[j] <= to && Holds(m, sites[j] - 1, Jmp(target)))
    && Increasing(sites)
  }

  ghost predicate Increasing(sites: seq<nat>) {
    forall i, j | 0 <= i < j < |sites| :: sites[i] < sites[j]
  }

  ghost function SiteSet(sites: seq<nat>): set<nat> {
    set e | e in sites
  }

  lemma AwaitingJoin(a: seq<nat>, b: seq<nat>, m: map<nat, Instr>, m1: map<nat, Instr>, from: nat, mid: nat, to: nat,
      target: nat)
    requires Awaiting(a, m, from, mid, target) && Awaiting(b, m1, mid, to, target) && Grown(m, m1) && from <= mid <= to
    ensures Awaiting(a + b, m1, from, to, target) && SiteSet(a + b) == SiteSet(a) + SiteSet(b)
  {
  }

  lemma AwaitingGrown(a: seq<nat>, m: map<nat, Instr>, m1: map<nat, Instr>, from: nat, mid: nat, from1: nat, to: nat,
      target: nat)
    requires Awaiting(a, m, from, mid, target) && Grown(m, m1) && from1 <= from && mid <= to
    ensures Awaiting(a, m1, from1, to, target)
  {
  }

  lemma {:induction false} EncTypesJoin(a: seq<TypeNode>, t: TypeNode, tab: Table)
    ensures EncTypes(a + [t], tab) == EncTypes(a, tab) + EncType(t, tab)
    ensures TypesKnown(a + [t], tab) <==> TypesKnown(a, tab) && TypeKnown(t, tab)
  {
    hide EncType, TypeKnown;
    var all := a + [t];
    if a == [] {
      assert all == [t] && all[1..] == [];
    } else {
      assert all[0] == a[0] && all[1..] == a[1..] + [t];
      EncTypesJoin(a[1..], t, tab);
      hide EncTypes, TypesKnown;
      Regroup(EncType(a[0], tab), EncTypes(a[1..], tab), EncType(t, tab));
    }
  }

  lemma EncTypesStep(ts: seq<TypeNode>, i: nat, tab: Table, tab1: Table)
    requires i < |ts| && TypesKnown(ts[..i], tab) && Grows(tab, tab1) && TypeKnown(ts[i], tab1)
    ensures TypesKnown(ts[..i + 1], tab1) && EncTypes(ts[..i + 1], tab1)
      == EncTypes(ts[..i], tab) + EncType(ts[i], tab1)
  {
    assert ts[..i + 1] == ts[..i] + [ts[i]];
    EncTypesStill(ts[..i], tab, tab1);
    EncTypesJoin(ts[..i], ts[i], tab1);
  }

  lemma Emitted(b: Blob, b1: Blob, i: Instr)
    requires Sound(b) && (b.failed || IsJump(i) || Encodable(i)) && (IsJump(i) ==> Boundary(b, TargetOf(i)))
    requires b1.code == b.code + EncInstr(i, b1.tab) && b1.instrs == b.instrs[|b.code| := i] && b1.pending == b.pending
    requires b1.emitted == b.emitted + [i] && b1.failed == b.failed && b1.owed == b.owed && b1.anchors == b.anchors
    requires Grows(b.tab, b1.tab) && Known(OperandOf(i), b1.tab)
    ensures Sound(b1)
  {
    EmitOk(b, b1, i);
  }

  /** The walk over the tree. `emitted`, `instrs` and `pending` record what the bytes
      stand for. The tree has no positions: `places` says where the statements are that are
      reached, one after the other. */
  class CodeEmitter {
    const strings: StringTable
    const builder: CodeBuilder
    const places: nat -> Position
    var seen: nat
    var anchors: seq<Loc>
    var loopBreaks: seq<seq<nat>>
    var strayBreaks: seq<nat>
    var constLocals: Consts
    var failed: bool
    ghost var emitted: seq<Instr>
    ghost var instrs: map<nat, Instr>
    ghost var pending: set<nat>
    ghost var owed: nat
    /** The text that was there before. */
    ghost const base: nat

    constructor (strings: StringTable, places: nat -> Position)
      requires strings.Valid()
      ensures Valid() && this.strings == strings && this.places == places && fresh(builder) && builder.code == []
      ensures base == |strings.data|
      ensures loopBreaks == [] && strayBreaks == [] && constLocals == map[] && !failed
      ensures emitted == [] && instrs == map[] && pending == {} && owed == 0 && anchors == [] && seen == 0
    {
      this.strings, this.places := strings, places;
      builder := new CodeBuilder();
      loopBreaks, strayBreaks, constLocals, failed := [], [], map[], false;
      seen, anchors, base := 0, [], |strings.data|;
      emitted, instrs, pending, owed := [], map[], {}, 0;
    }

    ghost function Now(): Blob
      reads this, builder, strings
    {
      Blob(builder.code, strings.interned, emitted, instrs, pending, failed, owed, anchors)
    }

    ghost predicate Valid()
      reads this, builder, strings
    {
      && strings.Valid() && Sound(Now()) && FitsConsts(constLocals)
      && |strings.data| <= base + ListText(emitted)
    }

    /** The offset of the next instruction. */
    function Here(): nat
      reads builder
    {
      |builder.code|
    }

    /** Everything recorded so far is still there. */
    twostate predicate Advanced()
      reads this, builder, strings
    {
      Valid() && (old(failed) ==> failed) && owed == old(owed) && Later(old(Now()), Now())
    }

    /** `list`, `size` bytes long, has been appended. */
    twostate predicate Wrote(list: seq<Instr>, size: nat)
      reads this, builder, strings
    {
      Advanced() && emitted == old(emitted) + list && Here() == old(Here()) + size
    }

    // ---- operands ----

    /** Append the encoding of a type operand. */
    method EmitType(t: TypeNode)
      requires strings.Valid()
      modifies builder, strings
      ensures strings.Valid() && Grows(old(strings.interned), strings.interned) && TypeKnown(t, strings.interned)
      ensures |strings.data| <= |old(strings.data)| + TypeText(t)
      ensures builder.code == old(builder.code) + EncType(t, strings.interned)
      decreases t, 1
    {
      hide TableOk, EncTypes, TypesKnown, LE;
      match t
      case Primitive(k) =>
        builder.U8(0);
        builder.U8(ByteOf(k));
        Regroup(old(builder.code), [0], [ByteOf(k)]);
      case Named(n) =>
        builder.U8(1);
        EmitText(n);
        Regroup(old(builder.code), [1], EncText(n, strings.interned));
      case ArrayOf(e) =>
        builder.U8(2);
        EmitType(e);
        Regroup(old(builder.code), [2], EncType(e, strings.interned));
      case TupleOf(es) => EmitTupleType(es);
      case MapOf(k, v) => EmitMapType(k, v);
      case LambdaOf(ps, ret) => EmitLambdaType(ps, ret);
    }

    method EmitTupleType(es: seq<TypeNode>)
      requires strings.Valid()
      modifies builder, strings
      ensures strings.Valid() && Grows(old(strings.interned), strings.interned) && TypesKnown(es, strings.interned)
      ensures |strings.data| <= |old(strings.data)| + TypesText(es)
      ensures builder.code == old(builder.code) + ([3] + LE(|es|, 4) + EncTypes(es, strings.interned))
      decreases TupleOf(es), 0
    {
      builder.U8(3);
      EmitTypes(es);
      Regroup(old(builder.code), [3], LE(|es|, 4) + EncTypes(es, strings.interned));
      Regroup([3], LE(|es|, 4), EncTypes(es, strings.interned));
    }

    method EmitMapType(key: TypeNode, item: TypeNode)
      requires strings.Valid()
      modifies builder, strings
      ensures strings.Valid() && Grows(old(strings.interned), strings.interned)
      ensures TypeKnown(key, strings.interned) && TypeKnown(item, strings.interned)
      ensures |strings.data| <= |old(strings.data)| + TypeText(key) + TypeText(item)
      ensures builder.code == old(builder.code)
        + ([4] + EncType(key, strings.interned) + EncType(item, strings.interned))
      decreases MapOf(key, item), 0
    {
      builder.U8(4);
      EmitType(key);
      ghost var tab, start := strings.interned, builder.code;
      EmitType(item);
      EncTypeStill(key, tab, strings.interned);
      Regroup(old(builder.code), [4], EncType(key, tab));
      Regroup(old(builder.code), [4] + EncType(key, tab), EncType(item, strings.interned));
    }

    method EmitLambdaType(params: seq<TypeNode>, ret: TypeNode)
      requires strings.Valid()
      modifies builder, strings
      ensures strings.Valid() && Grows(old(strings.interned), strings.interned)
      ensures TypesKnown(params, strings.interned) && TypeKnown(ret, strings.interned)
      ensures |strings.data| <= |old(strings.data)| + TypesText(params) + TypeText(ret)
      ensures builder.code == old(builder.code)
        + ([5] + LE(|params|, 4) + EncTypes(params, strings.interned) + EncType(ret, strings.interned))
      decreases LambdaOf(params, ret), 0
    {
      builder.U8(5);
      EmitTypes(params);
      ghost var tab := strings.interned;
      ghost var head := LE(|params|, 4) + EncTypes(params, tab);
      EmitType(ret);
      EncTypesStill(params, tab, strings.interned);
      Regroup(old(builder.code), [5], head);
      Regroup([5], LE(|params|, 4), EncTypes(params, tab));
      Regroup(old(builder.code), [5] + head, EncType(ret, strings.interned));
    }

    /** Append a count and that many types. */
    method EmitTypes(ts: seq<TypeNode>)
      requires strings.Valid()
      modifies builder, strings
      ensures strings.Valid() && Grows(old(strings.interned), strings.interned) && TypesKnown(ts, strings.interned)
      ensures |strings.data| <= |old(strings.data)| + TypesText(ts)
      ensures builder.code == old(builder.code) + (LE(|ts|, 4) + EncTypes(ts, strings.interned))
      decreases ts, 0
    {
      builder.U32(|ts|);
      ghost var start := builder.code;
      for i := 0 to |ts|
        invariant strings.Valid() && Grows(old(strings.interned), strings.interned)
        invariant TypesKnown(ts[..i], strings.interned)
        invariant builder.code == start + EncTypes(ts[..i], strings.interned)
        invariant |strings.data| <= |old(strings.data)| + TypesText(ts[..i])
      {
        ghost var tab := strings.interned;
        EmitType(ts[i]);
        EncTypesStep(ts, i, tab, strings.interned);
        TypesTextStep(ts, i);
        Regroup(start, EncTypes(ts[..i], tab), EncType(ts[i], strings.interned));
      }
      assert ts[..|ts|] == ts;
      Regroup(old(builder.code), LE(|ts|, 4), EncTypes(ts, strings.interned));
    }

    method EmitText(text: string)
      requires strings.Valid()
      modifies builder, strings
      ensures strings.Valid() && Grows(old(strings.interned), strings.interned) && text in strings.interned
      ensures |strings.data| <= |old(strings.data)| + |text|
      ensures builder.code == old(builder.code) + EncText(text, strings.interned)
    {
      var offset := strings.Intern(text);
      builder.Str(offset, |text|);
    }

    method EmitTexts(a: string, b: string)
      requires strings.Valid()
      modifies builder, strings
      ensures strings.Valid() && Grows(old(strings.interned), strings.interned) && a in strings.interned
        && b in strings.interned
      ensures |strings.data| <= |old(strings.data)| + |a| + |b|
      ensures builder.code == old(builder.code) + (EncText(a, strings.interned) + EncText(b, strings.interned))
    {
      EmitText(a);
      ghost var tab := strings.interned;
      EmitText(b);
      TextStill(a, tab, strings.interned);
      Regroup(old(builder.code), EncText(a, tab), EncText(b, strings.interned));
    }

    method EmitOperand(o: Operand)
      requires strings.Valid()
      modifies builder, strings
      ensures strings.Valid() && Grows(old(strings.interned), strings.interned) && Known(o, strings.interned)
      ensures |strings.data| <= |old(strings.data)| + OperandText(o)
      ensures builder.code == old(builder.code) + EncOperand(o, strings.interned)
    {
      match o
      case NoOperand =>
      case ByteOperand(b) => builder.U8(b);
      case WordOperand(n) => builder.U32(n);
      case LongOperand(n) => builder.U64(if IsI64(n) then ToTwos(n) else 0);
      case DoubleOperand(bits) => builder.U64(bits);
      case TextOperand(s) => EmitText(s);
      case TextsOperand(a, b) => EmitTexts(a, b);
      case TypeOperand(t) => EmitType(t);
    }

    // ---- instructions ----

    /** Append a complete instruction. */
    method Emit(i: Instr)
      requires Valid() && (failed || IsJump(i) || Encodable(i))
      requires IsJump(i) ==> Boundary(Now(), TargetOf(i))
      modifies this`instrs, this`emitted, builder, strings
      ensures Wrote([i], Width(i)) && (IsJump(i) || Inside(Now()))
    {
      hide ListText;
      ghost var b := Now();
      NewHere(b);
      builder.U8(OpcodeOf(i));
      EmitOperand(OperandOf(i));
      instrs, emitted := instrs[|b.code| := i], emitted + [i];
      Regroup(b.code, [OpcodeOf(i)], EncOperand(OperandOf(i), strings.interned));
      Emitted(b, Now(), i);
      ListTextStep(b.emitted, i);
      if !IsJump(i) {
        NowInside(b, Now(), i);
      }
    }

    method EmitTwo(i: Instr, j: Instr)
      requires Valid() && !IsJump(i) && !IsJump(j) && Encodable(i) && Encodable(j)
      modifies this`instrs, this`emitted, builder, strings
      ensures Wrote([i, j], Width(i) + Width(j)) && Inside(Now())
    {
      hide ListText;
      Emit(i);
      Emit(j);
      assert old(emitted) + [i] + [j] == old(emitted) + [i, j];
    }

    /** Append jump `i` with a placeholder for its target. */
    method EmitJump(ghost i: Instr, opcode: Byte) returns (operandAt: nat)
      requires Valid() && IsJump(i) && OpcodeOf(i) == opcode
      modifies this`instrs, this`emitted, this`pending, builder
      ensures Wrote([i], 5) && operandAt == old(Here()) + 1
      ensures operandAt - 1 in instrs && instrs[operandAt - 1] == i
      ensures pending == old(pending) + {operandAt}
    {
      hide ListText;
      ghost var b := Now();
      NewHere(b);
      operandAt := builder.Jump(opcode);
      instrs, emitted := instrs[|b.code| := i], emitted + [i];
      pending := pending + {operandAt};
      JumpOk(b, Now(), i);
      ListTextStep(b.emitted, i);
    }

    /** Give the pending jump in front of `operandAt` its target, which is always here. */
    method Patch(operandAt: nat, target: nat)
      requires Valid() && operandAt in pending && target == Here() && Waits(instrs, operandAt, target)
      modifies this`pending, builder
      ensures Wrote([], 0) && pending == old(pending) - {operandAt}
    {
      hide ListText;
      ghost var b, pc := Now(), operandAt - 1;
      assert Placed(b, pc);
      builder.Patch(operandAt, target);
      pending := pending - {operandAt};
      PatchOk(b, Now(), pc);
    }

    /** Patch a whole list of jumps. */
    method PatchAll(sites: seq<nat>, ghost from: nat, target: nat)
      requires Valid() && target == Here() && Awaiting(sites, instrs, from, target, target) && SiteSet(sites) <= pending
      modifies this`pending, builder
      ensures Wrote([], 0) && pending == old(pending) - SiteSet(sites)
    {
      hide ListText;
      for i := 0 to |sites|
        invariant Wrote([], 0) && pending == old(pending) - SiteSet(sites[..i])
      {
        assert sites[i] in SiteSet(sites);
        assert sites[i] !in SiteSet(sites[..i]);
        Patch(sites[i], target);
        assert SiteSet(sites[..i + 1]) == SiteSet(sites[..i]) + {sites[i]};
      }
      assert sites[..|sites|] == sites;
    }

    /** Record a compile error, for a list whose instruction is about to be emitted. */
    method Report()
      requires Valid()
      modifies this`failed, this`owed
      ensures Valid() && failed && Now() == old(Now()).(failed := true, owed := old(owed) + 1)
    {
      hide ListText;
      ghost var b := Now();
      failed := true;
      owed := owed + 1;
      GrowOk(b, Now());
    }

    /** The reported list has been emitted. */
    ghost method Settle(i: Instr)
      requires Valid() && owed > 0 && i in emitted && Overlong(i)
      modifies this`owed
      ensures Valid() && Now() == old(Now()).(owed := old(owed) - 1)
    {
      hide ListText;
      ghost var b := Now();
      owed := owed - 1;
      GrowOk(b, Now());
    }

    /** Anchor the code that comes next at the position of the statement reached now. */
    method EmitDebugAnchor()
      requires Valid()
      modifies this`seen, this`anchors
      ensures Wrote([], 0) && seen == old(seen) + 1 && anchors == Anchor(old(anchors), Here(), places(old(seen)))
    {
      hide ListText;
      ghost var b := Now();
      var p := places(seen);
      seen := seen + 1;
      if p.line > 0 {
        if anchors != [] {
          var last := anchors[|anchors| - 1];
          if last.pc == Here() && last.line == p.line && last.column == p.column && last.file == p.file {
            return;
          }
        }
        anchors := anchors + [Loc(Here(), p.line, p.column, p.file)];
        GrowOk(b, Now());
      }
    }

    ghost function Lot(): Park
      reads this, builder
    {
      Park(loopBreaks, strayBreaks, pending, instrs, Here())
    }

    /** The `break` jumps at `added` wait for `brk` and are in the list of the innermost
        loop, or in the list of strays outside any loop. */
    twostate predicate Parked(added: seq<nat>, brk: nat)
      reads this, builder
    {
      Parks(old(Lot()), Lot(), added, brk) && constLocals == old(constLocals)
    }

    // ---- expressions ----

    method EmitExpr(e: Expr)
      requires Valid() && FitsExpr(e)
      modifies this`instrs, this`emitted, this`pending, this`failed, this`owed, builder, strings
      ensures Wrote(ExprCode(LowerExpr(e, constLocals), old(Here())), SizeExpr(LowerExpr(e, constLocals)))
      ensures pending == old(pending)
      decreases e, 2
    {
      hide ListText, Sound, Later, ExprsCode, SizeExprs, LowerExprs;
      match e
      case Literal(l) => Emit(Push(l));
      case Ident(name) =>
        if name in constLocals {
          Emit(Push(IntLit(constLocals[name])));
        } else {
          Emit(Load(name));
        }
      case Apply(_, _) => EmitApply(e);
      case Logical(_, _, _) => EmitLogical(e);
      case Call(_, _) => EmitCall(e);
    }

    /** A strict operation: its operands, then the instruction. */
    method EmitApply(e: Expr)
      requires e.Apply? && Valid() && FitsExpr(e)
      modifies this`instrs, this`emitted, this`pending, this`failed, this`owed, builder, strings
      ensures Wrote(ExprCode(LowerExpr(e, constLocals), old(Here())), SizeExpr(LowerExpr(e, constLocals)))
      ensures pending == old(pending)
      decreases e, 0
    {
      hide ListText, Sound, Later, ExprsCode, SizeExprs, LowerExprs, Encodable, FitsExprs;
      ghost var operands, b0 := LowerExprs(e.operands, constLocals), Now();
      EmitExprs(e.operands);
      ghost var b1 := Now();
      Emit(Do(e.op));
      LaterTwice(b0, b1, Now());
      Regroup(old(emitted), ExprsCode(operands, old(Here())), [Do(e.op)]);
    }

    /** Short-circuit forms: the left value is the result when it decides. */
    method EmitLogical(e: Expr)
      requires e.Logical? && Valid() && FitsExpr(e)
      modifies this`instrs, this`emitted, this`pending, this`failed, this`owed, builder, strings
      ensures Wrote(ExprCode(LowerExpr(e, constLocals), old(Here())), SizeExpr(LowerExpr(e, constLocals)))
      ensures pending == old(pending)
      decreases e, 0
    {
      hide ListText;
      ghost var at, left, right := Here(), LowerExpr(e.left, constLocals), LowerExpr(e.right, constLocals);
      ghost var end := at + SizeExpr(left) + 7 + SizeExpr(right);
      EmitExpr(e.left);
      var site := EmitShortcut(e.isAnd, end);
      ghost var m, p := instrs, Here();
      EmitExpr(e.right);
      WaitsStill(m, instrs, site, end);
      Patch(site, Here());
      LogicalGlue(old(emitted), at, p, end, e.isAnd, left, right);
    }

    method EmitShortcut(isAnd: bool, ghost end: nat) returns (site: nat)
      requires Valid()
      modifies this`instrs, this`emitted, this`pending, builder, strings
      ensures Wrote(ShortcutCode(isAnd, end), 7) && Waits(instrs, site, end)
      ensures site !in old(pending) && pending == old(pending) + {site}
    {
      hide ListText, Sound, Later;
      ghost var b0 := Now();
      NewHere(b0);
      Emit(Dup);
      ghost var b1 := Now();
      NewHere(b1);
      site := EmitJump(ShortcutJump(isAnd, end), if isAnd then 32 else 33);
      ghost var b2 := Now();
      LaterTwice(b0, b1, b2);
      Emit(Pop);
      LaterTwice(b0, b2, Now());
      WaitsLater(b2, Now(), site, end);
    }

    method EmitCall(e: Expr)
      requires e.Call? && Valid() && FitsExpr(e)
      modifies this`instrs, this`emitted, this`pending, this`failed, this`owed, builder, strings
      ensures Wrote(ExprCode(LowerExpr(e, constLocals), old(Here())), SizeExpr(LowerExpr(e, constLocals)))
      ensures pending == old(pending) && (|e.args| > 255 ==> failed)
      decreases e, 1
    {
      hide ListText, Sound, Later;
      ghost var b := Now();
      if |e.args| > 255 {
        Report();
        EmitCallCode(e);
        ghost var b1 := Now();
        Settle(CallN(|e.args|));
        LaterReported(b, b1, true, b.owed + 1, b1.failed, b.owed);
      } else {
        EmitCallCode(e);
      }
    }

    method EmitCallCode(e: Expr)
      requires e.Call? && Valid() && FitsExpr(e) && (|e.args| > 255 ==> failed)
      modifies this`instrs, this`emitted, this`pending, this`failed, this`owed, builder, strings
      ensures Wrote(ExprCode(LowerExpr(e, constLocals), old(Here())), SizeExpr(LowerExpr(e, constLocals)))
      ensures pending == old(pending) && CallN(|e.args|) in emitted
      decreases e, 0
    {
      hide ListText, Sound, ExprsCode, SizeExprs, LowerExprs;
      ghost var at, callee, args := Here(), LowerExpr(e.callee, constLocals), LowerExprs(e.args, constLocals);
      EmitExpr(e.callee);
      ghost var p := Here();
      EmitExprs(e.args);
      Emit(CallN(|e.args|));
      assert CallN(|e.args|) in emitted;
      CallGlue(old(emitted), at, p, callee, args);
    }

    /** Expressions left to right. */
    method EmitExprs(es: seq<Expr>)
      requires Valid() && FitsExprs(es)
      modifies this`instrs, this`emitted, this`pending, this`failed, this`owed, builder, strings
      ensures Wrote(ExprsCode(LowerExprs(es, constLocals), old(Here())), SizeExprs(LowerExprs(es, constLocals)))
      ensures pending == old(pending)
      decreases es, 0
    {
      hide ListText, Sound, Later, ExprCode, SizeExpr, LowerExpr, FitsExpr;
      ghost var at, b0 := Here(), Now();
      LaterSelf(b0);
      for i := 0 to |es|
        invariant Wrote(ExprsCode(LowerExprs(es[..i], constLocals), at), SizeExprs(LowerExprs(es[..i], constLocals)))
        invariant pending == old(pending)
      {
        ghost var done, b1 := LowerExprs(es[..i], constLocals), Now();
        EmitExpr(es[i]);
        LaterTwice(b0, b1, Now());
        LowerExprsSnoc(es, i, constLocals);
        ExprsCodeSnoc(done, LowerExpr(es[i], constLocals), at);
        Regroup(old(emitted), ExprsCode(done, at), ExprCode(LowerExpr(es[i], constLocals), at + SizeExprs(done)));
      }
      assert es[..|es|] == es;
    }

    // ---- statements ----

    /** `brk` is where the enclosing loop is going to end. */
    method EmitStmt(s: Stmt, ghost brk: nat) returns (ghost added: seq<nat>)
      requires Valid() && FitsStmt(s)
      modifies this, builder, strings
      ensures Wrote(StmtCode(LowerStmt(s, constLocals), old(Here()), brk), SizeStmt(LowerStmt(s, constLocals)))
      ensures Parked(added, brk)
      decreases s, 2
    {
      hide ListText, Sound, Later, BlockCode, ChainCode, CasesCode, SizeBlock;
      match s
      case Assign(_, _, _) => EmitSimple(s, brk); added := []; ParkedNone(old(loopBreaks), old(strayBreaks));
      case ExprStmt(_) => EmitSimple(s, brk); added := []; ParkedNone(old(loopBreaks), old(strayBreaks));
      case Return(_) => EmitSimple(s, brk); added := []; ParkedNone(old(loopBreaks), old(strayBreaks));
      case Break => added := EmitBreak(brk);
      case Block(body) => added := EmitBlock(body, brk);
      case If(chain) => added := EmitIf(chain, brk);
      case Loop(_, _) => EmitLoop(s, brk); added := []; ParkedNone(old(loopBreaks), old(strayBreaks));
      case Match(_, _) => added := EmitMatch(s, brk);
      case Monitor(_, _, _) => added := EmitMonitor(s, brk);
    }

    method EmitSimple(s: Stmt, ghost brk: nat)
      requires (s.Assign? || s.ExprStmt? || s.Return?) && Valid() && FitsStmt(s)
      modifies this`instrs, this`emitted, this`pending, this`failed, this`owed, builder, strings
      ensures Wrote(StmtCode(LowerStmt(s, constLocals), old(Here()), brk), SizeStmt(LowerStmt(s, constLocals)))
      ensures pending == old(pending)
    {
      hide ListText, Sound, Later, ExprCode, SizeExpr, LowerExpr, AssignCode, SizeAssign;
      match s
      case Assign(_, _, _) => EmitAssign(s);
      case ExprStmt(e) => EmitThen(e, Pop);
      case Return(e) => EmitThen(e, Ret);
    }

    /** An expression and what becomes of its value. */
    method EmitThen(e: Expr, i: Instr)
      requires Valid() && FitsExpr(e) && (i == Pop || i == Ret)
      modifies this`instrs, this`emitted, this`pending, this`failed, this`owed, builder, strings
      ensures Wrote(ExprCode(LowerExpr(e, constLocals), old(Here())) + [i], SizeExpr(LowerExpr(e, constLocals)) + 1)
      ensures pending == old(pending)
    {
      hide ListText, Sound, Later, ExprCode, SizeExpr, LowerExpr, FitsExpr;
      ghost var code, b0 := ExprCode(LowerExpr(e, constLocals), Here()), Now();
      EmitExpr(e);
      ghost var b1 := Now();
      Emit(i);
      LaterTwice(b0, b1, Now());
      Regroup(old(emitted), code, [i]);
    }

    method EmitAssign(s: Stmt)
      requires s.Assign? && Valid() && FitsStmt(s)
      modifies this`instrs, this`emitted, this`pending, this`failed, this`owed, builder, strings
      ensures Wrote(AssignCode(s.targets, s.addAssign, LowerExpr(s.value, constLocals), old(Here())),
                    SizeAssign(s.targets, s.addAssign, LowerExpr(s.value, constLocals)))
      ensures pending == old(pending) && (|s.targets| > 255 ==> failed)
    {
      hide ListText;
      ghost var at, value := Here(), LowerExpr(s.value, constLocals);
      if |s.targets| > 255 {
        EmitOverlong(s.targets, s.addAssign, s.value);
        return;
      }
      if s.addAssign && |s.targets| == 1 && s.targets[0].To? {
        EmitAddAssign(s.targets[0].name, s.value);
        return;
      }
      if |s.targets| == 1 {
        EmitExpr(s.value);
        EmitBind(s.targets[0], false);
        Regroup(old(emitted), ExprCode(value, at), [TargetCode(s.targets[0])]);
        return;
      }
      EmitUnpack(s.targets, s.addAssign, s.value);
    }

    /** More targets than the count can say. */
    method EmitOverlong(ts: seq<Target>, addAssign: bool, value: Expr)
      requires Valid() && FitsExpr(value) && FitsTargets(ts) && |ts| > 255
      modifies this`instrs, this`emitted, this`pending, this`failed, this`owed, builder, strings
      ensures Wrote(ExprCode(LowerExpr(value, constLocals), old(Here()))
        + ([Instr.Unpack(|ts|)] + BindsCode(ts, addAssign)),
                    SizeExpr(LowerExpr(value, constLocals)) + 2 + SizeBinds(ts, addAssign))
      ensures pending == old(pending) && failed
    {
      hide ListText, Sound, Later;
      ghost var b := Now();
      Report();
      EmitUnpack(ts, addAssign, value);
      ghost var b1 := Now();
      Settle(Instr.Unpack(|ts|));
      LaterReported(b, b1, true, b.owed + 1, b1.failed, b.owed);
    }

    /** Destructuring: element 0 ends up on top, so targets bind in source order. */
    method EmitUnpack(ts: seq<Target>, addAssign: bool, value: Expr)
      requires Valid() && FitsExpr(value) && FitsTargets(ts) && (|ts| > 255 ==> failed)
      modifies this`instrs, this`emitted, this`pending, this`failed, this`owed, builder, strings
      ensures Wrote(ExprCode(LowerExpr(value, constLocals), old(Here()))
        + ([Instr.Unpack(|ts|)] + BindsCode(ts, addAssign)),
                    SizeExpr(LowerExpr(value, constLocals)) + 2 + SizeBinds(ts, addAssign))
      ensures pending == old(pending) && Instr.Unpack(|ts|) in emitted
    {
      hide ListText, Sound, Later, ExprCode, SizeExpr, LowerExpr, BindsCode, SizeBinds;
      ghost var code, b0 := ExprCode(LowerExpr(value, constLocals), Here()), Now();
      EmitExpr(value);
      ghost var b1 := Now();
      Emit(Instr.Unpack(|ts|));
      ghost var b2 := Now();
      LaterTwice(b0, b1, b2);
      EmitBinds(ts, addAssign);
      LaterTwice(b0, b2, Now());
      assert Instr.Unpack(|ts|) in emitted;
      Regroup(old(emitted) + code, [Instr.Unpack(|ts|)], BindsCode(ts, addAssign));
      Regroup(old(emitted), code, [Instr.Unpack(|ts|)] + BindsCode(ts, addAssign));
    }

    /** `name = name + value`: the old value is loaded first. */
    method EmitAddAssign(name: string, value: Expr)
      requires Valid() && FitsExpr(value) && TextFits(name)
      modifies this`instrs, this`emitted, this`pending, this`failed, this`owed, builder, strings
      ensures Wrote([Load(name)] + (ExprCode(LowerExpr(value, constLocals), old(Here()) + 9)
        + [Do(Binary(Add)), Store(name)]),
                    SizeExpr(LowerExpr(value, constLocals)) + 19)
      ensures pending == old(pending)
    {
      hide ListText, Sound, Later, SizeExpr, LowerExpr, ExprCode, FitsExpr, Encodable;
      NameFits(name);
      ghost var code := ExprCode(LowerExpr(value, constLocals), Here() + 9);
      Emit(Load(name));
      assert emitted == old(emitted) + [Load(name)];
      ghost var b1 := Now();
      EmitExpr(value);
      assert emitted == old(emitted) + [Load(name)] + code;
      ghost var b2 := Now();
      EmitTwo(Do(Binary(Add)), Store(name));
      LaterTwice(old(Now()), b1, b2);
      LaterTwice(old(Now()), b2, Now());
      Regroup(old(emitted) + [Load(name)], code, [Do(Binary(Add)), Store(name)]);
      Regroup(old(emitted), [Load(name)], code + [Do(Binary(Add)), Store(name)]);
    }

    /** Pop the stack top into a target. */
    method EmitBind(t: Target, addAssign: bool)
      requires Valid() && (t.To? ==> TextFits(t.name))
      modifies this`instrs, this`emitted, this`pending, this`failed, this`owed, builder, strings
      ensures Wrote(BindCode(t, addAssign), SizeBind(t, addAssign)) && pending == old(pending)
    {
      hide ListText, Sound, TableOk;
      if addAssign && t.To? {
        EmitTwo(Load(t.name), Swap);
        EmitTwo(Do(Binary(Add)), Store(t.name));
        Regroup(old(emitted), [Load(t.name), Swap], [Do(Binary(Add)), Store(t.name)]);
      } else {
        Emit(TargetCode(t));
      }
    }

    method EmitBinds(ts: seq<Target>, addAssign: bool)
      requires Valid() && FitsTargets(ts)
      modifies this`instrs, this`emitted, this`pending, this`failed, this`owed, builder, strings
      ensures Wrote(BindsCode(ts, addAssign), SizeBinds(ts, addAssign)) && pending == old(pending)
    {
      hide ListText;
      for i := 0 to |ts|
        invariant Wrote(BindsCode(ts[..i], addAssign), SizeBinds(ts[..i], addAssign)) && pending == old(pending)
      {
        EmitBind(ts[i], addAssign);
        assert ts[..i + 1] == ts[..i] + [ts[i]];
        BindsCodeSnoc(ts[..i], ts[i], addAssign);
        Regroup(old(emitted), BindsCode(ts[..i], addAssign), BindCode(ts[i], addAssign));
      }
      assert ts[..|ts|] == ts;
    }

    method EmitBreak(ghost brk: nat) returns (ghost added: seq<nat>)
      requires Valid()
      modifies this, builder, strings
      ensures Wrote([Jmp(brk)], 5) && Parked(added, brk)
    {
      hide ListText;
      var site := EmitJump(Jmp(brk), 31);
      if loopBreaks == [] {
        strayBreaks := strayBreaks + [site];
      } else {
        loopBreaks := loopBreaks[..|loopBreaks| - 1] + [loopBreaks[|loopBreaks| - 1] + [site]];
      }
      added := [site];
    }

    // ---- statement lists and unrolled loops ----

    method EmitBlock(ss: seq<Stmt>, ghost brk: nat) returns (ghost added: seq<nat>)
      requires Valid() && FitsBlock(ss)
      modifies this, builder, strings
      ensures Wrote(BlockCode(LowerBlock(ss, constLocals), old(Here()), brk), SizeBlock(LowerBlock(ss, constLocals)))
      ensures Parked(added, brk)
      ensures ss != [] ==> Recorded(Anchor(old(anchors), old(Here()), places(old(seen))), old(Here()), anchors)
      decreases ss, 2
    {
      hide ListText, Sound, Later, StmtCode, SizeStmt, LowerStmt, FitsBlock, Recorded, Anchor;
      ghost var at, k, lot, done, b0 := Here(), constLocals, Lot(), [], Now();
      ghost var own := Anchor(anchors, at, places(seen));
      LaterSelf(b0);
      added := [];
      ParkedNone(loopBreaks, strayBreaks);
      var i := 0;
      while i < |ss|
        invariant i <= |ss| && LowerBlock(ss, k) == done + LowerBlock(ss[i..], k)
        invariant Wrote(BlockCode(done, at, brk), SizeBlock(done)) && Parked(added, brk)
        invariant i == 0 ==> anchors == b0.anchors && seen == old(seen) && Here() == at
        invariant i > 0 ==> Recorded(own, at, anchors)
      {
        ghost var low, more, mid, lot1, b1, first := Break, [], Here(), Lot(), Now(), i == 0;
        i, low, more := EmitNext(ss, i, brk);
        LaterTwice(b0, b1, Now());
        LaterGrown(b1, Now());
        LaterRecorded(b1, Now());
        if !first {
          RecordedTwice(own, at, b1.anchors, mid, anchors);
        }
        BlockGrows(old(emitted), done, low, at, mid, brk);
        Regroup(done, [low], LowerBlock(ss[i..], k));
        ParksTwice(lot, lot1, Lot(), added, more, brk);
        done, added := done + [low], added + more;
      }
      assert done + LowerBlock(ss[i..], k) == done;
    }

    /** The statement at `i`, or the counted loop that starts there, anchored where it begins. */
    method EmitNext(ss: seq<Stmt>, i: nat, ghost brk: nat) returns (next: nat, ghost low: Stmt, ghost added: seq<nat>)
      requires i < |ss| && Valid() && FitsBlock(ss)
      modifies this, builder, strings
      ensures i < next <= |ss| && LowerBlock(ss[i..], constLocals) == [low] + LowerBlock(ss[next..], constLocals)
      ensures Wrote(StmtCode(low, old(Here()), brk), SizeStmt(low)) && Parked(added, brk)
      ensures Recorded(Anchor(old(anchors), old(Here()), places(old(seen))), old(Here()), anchors)
      decreases ss, 1
    {
      hide ListText, Sound, Later, Parks, StmtCode, SizeStmt, LowerBlock, FitsBlock, Recorded, Anchor;
      ghost var b0 := Now();
      EmitDebugAnchor();
      assert emitted == old(emitted) && Here() == old(Here()) && Lot() == old(Lot());
      ghost var b1 := Now();
      next, low, added := EmitReached(ss, i, brk);
      LaterTwice(b0, b1, Now());
      LaterRecorded(b1, Now());
    }

    method EmitReached(ss: seq<Stmt>, i: nat, ghost brk: nat)
      returns (next: nat, ghost low: Stmt, ghost added: seq<nat>)
      requires i < |ss| && Valid() && FitsBlock(ss)
      modifies this, builder, strings
      ensures i < next <= |ss| && LowerBlock(ss[i..], constLocals) == [low] + LowerBlock(ss[next..], constLocals)
      ensures Wrote(StmtCode(low, old(Here()), brk), SizeStmt(low)) && Parked(added, brk)
      decreases ss, 0
    {
      hide ListText, Sound, Later, Parks;
      NextLowered(ss, i, constLocals);
      if i + 1 < |ss| && MatchCounted(ss[i], ss[i + 1]).Some? {
        var c := MatchCounted(ss[i], ss[i + 1]).value;
        low := Block(Copies(Work(ss[i + 1]), c, 0, constLocals));
        CountedFits(ss[i], ss[i + 1]);
        added := EmitUnrolled(ss[i + 1], c, brk);
        next := i + 2;
      } else {
        low := LowerStmt(ss[i], constLocals);
        added := EmitStmt(ss[i], brk);
        next := i + 1;
      }
    }

    /** Unroll a loop and restore the constants. */
    method EmitUnrolled(loop: Stmt, c: Counted, ghost brk: nat) returns (ghost added: seq<nat>)
      requires loop.Loop? && loop.body != [] && Valid() && FitsStmt(loop)
      requires IsI64(c.start) && IsI64(c.start + c.trips - 1)
      modifies this, builder, strings
      ensures Wrote(BlockCode(Copies(Work(loop), c, 0, constLocals), old(Here()), brk),
                    SizeBlock(Copies(Work(loop), c, 0, constLocals)))
      ensures Parked(added, brk)
      decreases loop, 2
    {
      hide ListText;
      ghost var k := constLocals;
      var bound := c.counter in constLocals;
      var saved := if bound then constLocals[c.counter] else 0;
      added := EmitCopies(loop, c, brk);
      ReboundRestored(k, constLocals, c.counter);
      if bound {
        constLocals := constLocals[c.counter := saved];
      } else {
        constLocals := constLocals - {c.counter};
      }
    }

    /** One copy of the body per iteration, the counter being a constant in each. */
    method EmitCopies(loop: Stmt, c: Counted, ghost brk: nat) returns (ghost added: seq<nat>)
      requires loop.Loop? && loop.body != [] && Valid() && FitsStmt(loop)
      requires IsI64(c.start) && IsI64(c.start + c.trips - 1)
      modifies this, builder, strings
      ensures Wrote(BlockCode(Copies(Work(loop), c, 0, old(constLocals)), old(Here()), brk),
                    SizeBlock(Copies(Work(loop), c, 0, old(constLocals))))
      ensures Parks(old(Lot()), Lot(), added, brk) && Rebound(old(constLocals), constLocals, c.counter)
      decreases loop, 1, 1
    {
      hide ListText, Sound, Later, StmtCode, SizeStmt, LowerStmt;
      ghost var at, k, lot, done := Here(), constLocals, Lot(), [];
      ghost var b0 := Now();
      LaterSelf(b0);
      added := [];
      ParkedNone(loopBreaks, strayBreaks);
      for step := 0 to c.trips
        invariant Rebound(k, constLocals, c.counter)
        invariant Copies(Work(loop), c, 0, k) == done + Copies(Work(loop), c, step, k)
        invariant Wrote(BlockCode(done, at, brk), SizeBlock(done)) && Parks(lot, Lot(), added, brk)
      {
        ghost var mid, lot1, low := Here(), Lot(), Block(LowerStmts(Work(loop), k[c.counter := c.start + step]));
        ghost var b1 := Now();
        ghost var more := EmitCopy(loop, c.counter, c.start + step, k, brk);
        LaterTwice(b0, b1, Now());
        LaterGrown(b1, Now());
        BlockGrows(old(emitted), done, low, at, mid, brk);
        Regroup(done, [low], Copies(Work(loop), c, step + 1, k));
        ParksTwice(lot, lot1, Lot(), added, more, brk);
        done, added := done + [low], added + more;
      }
      assert done + Copies(Work(loop), c, c.trips, k) == done;
    }

    method EmitCopy(loop: Stmt, counter: string, v: int, ghost k: Consts, ghost brk: nat)
      returns (ghost added: seq<nat>)
      requires loop.Loop? && loop.body != [] && Valid() && FitsStmt(loop) && IsI64(v)
        && Rebound(k, constLocals, counter)
      modifies this, builder, strings
      ensures Wrote(StmtCode(Block(LowerStmts(Work(loop), k[counter := v])), old(Here()), brk),
                    SizeStmt(Block(LowerStmts(Work(loop), k[counter := v]))))
      ensures Parks(old(Lot()), Lot(), added, brk) && Rebound(k, constLocals, counter)
      decreases loop, 1, 0
    {
      hide ListText;
      ReboundSet(k, constLocals, counter, v);
      constLocals := constLocals[counter := v];
      added := EmitUnrolledBody(loop, brk);
    }

    method EmitUnrolledBody(loop: Stmt, ghost brk: nat) returns (ghost added: seq<nat>)
      requires loop.Loop? && loop.body != [] && Valid() && FitsStmt(loop)
      modifies this, builder, strings
      ensures Wrote(BlockCode(LowerStmts(Work(loop), constLocals), old(Here()), brk),
                    SizeBlock(LowerStmts(Work(loop), constLocals)))
      ensures Parked(added, brk)
      decreases loop, 0
    {
      hide ListText, Sound, Later, StmtCode, SizeStmt, LowerStmt, BlockCode, SizeBlock, LowerStmts;
      ghost var at, k, lot, work, b0 := Here(), constLocals, Lot(), Work(loop), Now();
      LaterSelf(b0);
      assert work[..0] == [] && LowerStmts(work[..0], k) == [] by { NoStmts(k, at, brk); }
      NoStmts(k, at, brk);
      added := [];
      ParkedNone(loopBreaks, strayBreaks);
      for i := 0 to |loop.body| - 1
        invariant Wrote(BlockCode(LowerStmts(work[..i], k), at, brk), SizeBlock(LowerStmts(work[..i], k)))
        invariant Parked(added, brk)
      {
        ghost var done, mid, lot1, b1 := LowerStmts(work[..i], k), Here(), Lot(), Now();
        FitsAt(loop, i);
        ghost var more := EmitStmt(loop.body[i], brk);
        LaterTwice(b0, b1, Now());
        LaterGrown(b1, Now());
        LowerStmtsSnoc(work, i, k);
        BlockGrows(old(emitted), done, LowerStmt(work[i], k), at, mid, brk);
        ParksTwice(lot, lot1, Lot(), added, more, brk);
        added := added + more;
      }
      assert work[..|work|] == work;
    }

    // ---- branches ----

    /** A condition and the jump past the arm it guards. */
    method EmitTest(cond: Expr, hint: Hint, ghost next: nat) returns (skip: nat)
      requires Valid() && FitsExpr(cond)
      modifies this`instrs, this`emitted, this`pending, this`failed, this`owed, builder, strings
      ensures Wrote(ExprCode(LowerExpr(cond, constLocals), old(Here())) + TestCode(hint, next),
                    SizeExpr(LowerExpr(cond, constLocals)) + SizeHint(hint) + 5)
      ensures Waits(instrs, skip, next) && skip !in old(pending) && pending == old(pending) + {skip} && skip <= Here()
    {
      hide ListText;
      ghost var code := ExprCode(LowerExpr(cond, constLocals), Here());
      EmitExpr(cond);
      skip := EmitTestJump(hint, next);
      Regroup(old(emitted), code, TestCode(hint, next));
    }

    method EmitTestJump(hint: Hint, ghost next: nat) returns (skip: nat)
      requires Valid()
      modifies this`instrs, this`emitted, this`pending, this`failed, this`owed, builder, strings
      ensures Wrote(TestCode(hint, next), SizeHint(hint) + 5)
      ensures Waits(instrs, skip, next) && skip !in old(pending) && pending == old(pending) + {skip} && skip <= Here()
    {
      hide ListText;
      if hint != NoHint {
        Emit(HintBranch(hint == Unlikely));
      }
      assert emitted == old(emitted) + HintCode(hint);
      NewHere(Now());
      skip := EmitJump(JmpIfFalse(next), 32);
      Regroup(old(emitted), HintCode(hint), [JmpIfFalse(next)]);
    }

    /** The scrutinee's copy compared with a member, and the jump past the arm. */
    method EmitCaseTest(arm: Case, ghost next: nat) returns (skip: nat)
      requires Valid() && Encodable(Push(EnumLit(arm.enumName, arm.member)))
      modifies this`instrs, this`emitted, this`pending, this`failed, this`owed, builder, strings
      ensures Wrote(CaseTestCode(arm, next), 24)
      ensures Waits(instrs, skip, next) && skip !in old(pending) && pending == old(pending) + {skip} && skip <= Here()
    {
      hide ListText, Sound, Later, Encodable;
      ghost var b0 := Now();
      PendingBelow(b0);
      EmitCompare(arm);
      ghost var b1 := Now();
      NewHere(b1);
      skip := EmitJump(JmpIfFalse(next), 32);
      LaterTwice(b0, b1, Now());
      Regroup(old(emitted), CompareCode(arm), [JmpIfFalse(next)]);
      assert CompareCode(arm) + [JmpIfFalse(next)] == CaseTestCode(arm, next);
    }

    method EmitCompare(arm: Case)
      requires Valid() && Encodable(Push(EnumLit(arm.enumName, arm.member)))
      modifies this`instrs, this`emitted, builder, strings
      ensures Wrote(CompareCode(arm), 19)
    {
      hide ListText, Sound, Later;
      ghost var b0 := Now();
      EmitTwo(Dup, Push(EnumLit(arm.enumName, arm.member)));
      ghost var b1 := Now();
      Emit(Do(Binary(Eq)));
      LaterTwice(b0, b1, Now());
      Regroup(old(emitted), [Dup, Push(EnumLit(arm.enumName, arm.member))], [Do(Binary(Eq))]);
    }

    /** The body of an arm, its jump to the common end, and the target of its test. */
    method EmitArm(body: seq<Stmt>, skip: nat, ghost next: nat, ghost end: nat, ghost brk: nat)
      returns (site: nat, ghost added: seq<nat>)
      requires Valid() && FitsBlock(body) && skip in pending && Waits(instrs, skip, next) && skip <= Here()
      requires next == Here() + SizeBlock(LowerBlock(body, constLocals)) + 5
      modifies this, builder, strings
      ensures Wrote(BlockCode(LowerBlock(body, constLocals), old(Here()), brk) + [Jmp(end)],
                    SizeBlock(LowerBlock(body, constLocals)) + 5)
      ensures ParksEnds(old(Lot()).(pending := old(pending) - {skip}), Lot(), added, [site], brk, end)
      ensures constLocals == old(constLocals)
      decreases body, 3
    {
      hide ListText, Sound, Later, LowerBlock, BlockCode, SizeBlock, FitsBlock, Parks, Recorded, Anchor;
      ghost var lot, low, b0 := Lot(), LowerBlock(body, constLocals), Now();
      added := EmitBlock(body, brk);
      ghost var lot1, b1 := Lot(), Now();
      LaterGrown(b0, b1);
      site := EmitJump(Jmp(end), 31);
      ghost var b2 := Now();
      LaterTwice(b0, b1, b2);
      LaterGrown(b0, b2);
      WaitsStill(lot.instrs, instrs, skip, next);
      ParkedPending(lot, lot1, added, brk, skip);
      Patch(skip, Here());
      LaterTwice(b0, b2, Now());
      LaterTwice(b1, b2, Now());
      LaterGrown(b1, Now());
      Regroup(old(emitted), BlockCode(low, lot.here, brk), [Jmp(end)]);
      ArmParked(lot, lot1, Lot(), added, skip, site, brk, end);
    }

    /** One arm of an `if` chain. */
    method EmitBranch(ch: Chain, ghost end: nat, ghost brk: nat) returns (site: nat, ghost added: seq<nat>)
      requires ch.Elif? && Valid() && FitsChain(ch)
      modifies this, builder, strings
      ensures Wrote(BranchCode(LowerChain(ch, constLocals), old(Here()), end, brk),
                    NextArm(LowerChain(ch, constLocals), old(Here())) - old(Here()))
      ensures ParksEnds(old(Lot()), Lot(), added, [site], brk, end) && constLocals == old(constLocals)
      decreases ch, 0
    {
      hide ListText, Sound, Later, ParksEnds, LowerBlock, BlockCode, SizeBlock, Waits, FitsBlock, LowerExpr, ExprCode,
        SizeExpr, FitsExpr;
      ghost var at, low, lot, b0 := Here(), LowerChain(ch, constLocals), Lot(), Now();
      PendingBelow(Now());
      ghost var next := NextArm(low, at);
      var skip := EmitTest(ch.cond, ch.hint, next);
      ghost var lot1, b1 := Lot(), Now();
      site, added := EmitArm(ch.body, skip, next, end, brk);
      LaterTwice(b0, b1, Now());
      BranchParked(lot, lot1, Lot(), added, skip, site, brk, end);
      BranchGlue(old(emitted), low, at, end, brk);
    }

    method EmitIf(chain: Chain, ghost brk: nat) returns (ghost added: seq<nat>)
      requires Valid() && FitsChain(chain)
      modifies this, builder, strings
      ensures Wrote(ChainCode(LowerChain(chain, constLocals), old(Here()),
                              old(Here()) + SizeChain(LowerChain(chain, constLocals)), brk),
                    SizeChain(LowerChain(chain, constLocals)))
      ensures Parked(added, brk)
      decreases chain, 2
    {
      hide ListText, Sound, Parks, ParksEnds, ChainCode, SizeChain, LowerChain;
      ghost var lot, end, done := Lot(), Here() + SizeChain(LowerChain(chain, constLocals)), [];
      PendingBelow(Now());
      var els, ends;
      els, ends, added, done := EmitBranches(chain, end, brk);
      ghost var last := BlockCode(LowerBlock(els, constLocals), Here(), brk);
      added := EmitElse(els, ends, lot, added, brk, end);
      Regroup(old(emitted), done, last);
      assert emitted == old(emitted) + (done + last) && Here() == end;
    }

    /** The `else` block, behind which every arm continues. */
    method EmitElse(els: seq<Stmt>, ends: seq<nat>, ghost p: Park, ghost before: seq<nat>, ghost brk: nat,
        ghost end: nat)
      returns (ghost added: seq<nat>)
      requires Valid() && FitsBlock(els) && end == Here() + SizeBlock(LowerBlock(els, constLocals))
      requires ParksEnds(p, Lot(), before, ends, brk, end) && p.here <= Here() && forall e | e in p.pending ::
        e <= p.here
      modifies this, builder, strings
      ensures Wrote(BlockCode(LowerBlock(els, constLocals), old(Here()), brk), SizeBlock(LowerBlock(els, constLocals)))
      ensures Parks(p, Lot(), added, brk) && constLocals == old(constLocals)
      decreases els, 3
    {
      hide ListText;
      ghost var lot := Lot();
      ghost var more := EmitBlock(els, brk);
      added := CloseEnds(p, lot, before, more, ends, brk, end);
    }

    /** The conditional arms of an `if`, up to its `else` block. */
    method EmitBranches(chain: Chain, ghost end: nat, ghost brk: nat)
      returns (els: seq<Stmt>, ends: seq<nat>, ghost added: seq<nat>, ghost done: seq<Instr>)
      requires Valid() && FitsChain(chain) && end == Here() + SizeChain(LowerChain(chain, constLocals))
      modifies this, builder, strings
      ensures (Else(els) == chain || Else(els) < chain) && FitsBlock(els)
      ensures old(Here()) <= Here() && Wrote(done, Here() - old(Here()))
      ensures end == Here() + SizeBlock(LowerBlock(els, constLocals))
      ensures ChainCode(LowerChain(chain, constLocals), old(Here()), end, brk)
           == done + BlockCode(LowerBlock(els, constLocals), Here(), brk)
      ensures ParksEnds(old(Lot()), Lot(), added, ends, brk, end) && constLocals == old(constLocals)
      decreases chain, 1
    {
      hide ListText, Sound, Later, ParksEnds, BlockCode, FitsExpr, FitsBlock, LowerBlock, LowerExpr, ExprCode,
        SizeBlock, SizeExpr, NextArm, BranchCode;
      ghost var at, lot, all := Here(), Lot(), ChainCode(LowerChain(chain, constLocals), Here(), end, brk);
      var rest := chain;
      ends, added, done := [], [], [];
      ghost var b0 := Now();
      LaterSelf(b0);
      EndsNone(lot, brk, end);
      while rest.Elif?
        invariant (rest == chain || rest < chain) && FitsChain(rest)
        invariant at <= Here() && Wrote(done, Here() - at) && end == Here() + SizeChain(LowerChain(rest, constLocals))
        invariant all == done + ChainCode(LowerChain(rest, constLocals), Here(), end, brk)
        invariant ParksEnds(lot, Lot(), added, ends, brk, end) && constLocals == old(constLocals)
        decreases rest
      {
        ghost var lot1, p, low, b1 := Lot(), Here(), LowerChain(rest, constLocals), Now();
        ghost var more: seq<nat>;
        var site: nat;
        site, more := EmitBranch(rest, end, brk);
        LaterTwice(b0, b1, Now());
        LaterGrown(b1, Now());
        EndsTwice(lot, lot1, Lot(), added, more, ends, [site], brk, end);
        ChainGrows(old(emitted), all, done, low, p, end, brk);
        done, added, ends, rest := done + BranchCode(low, p, end, brk), added + more, ends + [site], rest.rest;
      }
      els := rest.els;
    }

    /** The arms behind, all of them leave for here. */
    method CloseEnds(ghost p: Park, ghost q: Park, ghost before: seq<nat>, ghost more: seq<nat>, ends: seq<nat>,
        ghost brk: nat, ghost end: nat) returns (ghost added: seq<nat>)
      requires Valid() && end == Here() && ParksEnds(p, q, before, ends, brk, end) && Parks(q, Lot(), more, brk)
      requires Grown(q.instrs, instrs) && p.here <= q.here <= Here() && forall e | e in p.pending :: e <= p.here
      modifies this`pending, builder
      ensures Wrote([], 0) && Parks(p, Lot(), added, brk)
    {
      hide ListText;
      EndsWith(p, q, Lot(), before, more, ends, brk, end);
      added := before + more;
      PatchAll(ends, p.here, Here());
    }

    // ---- match ----

    method EmitMatch(s: Stmt, ghost brk: nat) returns (ghost added: seq<nat>)
      requires s.Match? && Valid() && FitsStmt(s)
      modifies this, builder, strings
      ensures Wrote(StmtCode(LowerStmt(s, constLocals), old(Here()), brk), SizeStmt(LowerStmt(s, constLocals)))
      ensures Parked(added, brk)
      decreases s, 0
    {
      hide ListText, Sound, Parks, ParksEnds, ExprCode, CasesCode, SizeExpr, SizeCases, LowerExpr, LowerCases;
      hide Later, FitsExpr, FitsCases;
      ghost var at, lot, b0 := Here(), Lot(), Now();
      EmitExpr(s.scrutinee);
      ghost var first, lot1, b1 := Here(), Lot(), Now();
      added := EmitCases(s.cases, brk);
      ghost var lot2, b2 := Lot(), Now();
      LaterTwice(b0, b1, b2);
      Emit(Pop);
      LaterTwice(b0, b2, Now());
      LaterGrown(b2, Now());
      ParksInside(lot, lot1, lot2, Lot(), added, brk);
      MatchGlue(old(emitted), LowerExpr(s.scrutinee, constLocals), LowerCases(s.cases, constLocals), at, first, brk);
    }

    /** The arms of a match; every arm but the chosen one is skipped. */
    method EmitCases(cases: seq<Case>, ghost brk: nat) returns (ghost added: seq<nat>)
      requires Valid() && FitsCases(cases)
      modifies this, builder, strings
      ensures Wrote(CasesCode(LowerCases(cases, constLocals), old(Here()),
                              old(Here()) + SizeCases(LowerCases(cases, constLocals)), brk),
                    SizeCases(LowerCases(cases, constLocals)))
      ensures Parked(added, brk)
      decreases cases, 1
    {
      hide ListText, Sound, Later, ParksEnds, CasesCode, SizeCases, LowerCases;
      ghost var low := LowerCases(cases, constLocals);
      ghost var end, lot, b0 := Here() + SizeCases(low), Lot(), Now();
      PendingBelow(b0);
      var ends;
      ends, added := EmitArms(cases, low, end, brk);
      ghost var b1 := Now();
      ParkedNone(loopBreaks, strayBreaks);
      added := CloseEnds(lot, Lot(), added, [], ends, brk, end);
      LaterTwice(b0, b1, Now());
    }

    /** The arms, one behind the other; each leaves by a jump of `ends`. */
    method EmitArms(cases: seq<Case>, ghost low: seq<Case>, ghost end: nat, ghost brk: nat)
      returns (ends: seq<nat>, ghost added: seq<nat>)
      requires Valid() && FitsCases(cases) && low == LowerCases(cases, constLocals)
      modifies this, builder, strings
      ensures Wrote(CasesCode(low, old(Here()), end, brk), SizeCases(low)) && constLocals == old(constLocals)
      ensures ParksEnds(old(Lot()), Lot(), added, ends, brk, end)
      decreases cases, 0
    {
      hide ListText, Sound, Later, ParksEnds, StmtCode, BlockCode, SizeBlock, LowerBlock;
      ghost var at, lot, k, b0 := Here(), Lot(), constLocals, Now();
      LaterSelf(b0);
      LowerCasesLength(cases, k);
      ends, added := [], [];
      EndsNone(lot, brk, end);
      for i := 0 to |cases|
        invariant |low| == |cases| && constLocals == k
        invariant Wrote(CasesCode(low[..i], at, end, brk), SizeCases(low[..i]))
        invariant ParksEnds(lot, Lot(), added, ends, brk, end)
      {
        ghost var lot1, p, b1 := Lot(), Here(), Now();
        ghost var more: seq<nat>;
        var site: nat;
        LowerCasesAt(cases, i, k);
        site, more := EmitCase(cases[i], end, brk);
        LaterTwice(b0, b1, Now());
        LaterGrown(b1, Now());
        EndsTwice(lot, lot1, Lot(), added, more, ends, [site], brk, end);
        CasesGrow(old(emitted), low, i, at, p, end, brk);
        added, ends := added + more, ends + [site];
      }
      assert low[..|cases|] == low;
    }

    method EmitCase(arm: Case, ghost end: nat, ghost brk: nat) returns (site: nat, ghost added: seq<nat>)
      requires Valid() && Encodable(Push(EnumLit(arm.enumName, arm.member))) && FitsBlock(arm.body)
      modifies this, builder, strings
      ensures Wrote(CaseCode(LowerCase(arm, constLocals), old(Here()), end, brk),
                    24 + SizeBlock(LowerBlock(arm.body, constLocals)) + 5)
      ensures ParksEnds(old(Lot()), Lot(), added, [site], brk, end) && constLocals == old(constLocals)
      decreases arm, 0
    {
      hide ListText, Sound, Later, ParksEnds, LowerBlock, BlockCode, SizeBlock, Waits, FitsBlock;
      ghost var at, lot, low, b0 := Here(), Lot(), LowerBlock(arm.body, constLocals), Now();
      PendingBelow(Now());
      ghost var next := at + 24 + SizeBlock(low) + 5;
      var skip := EmitCaseTest(arm, next);
      ghost var lot1, b1 := Lot(), Now();
      site, added := EmitArm(arm.body, skip, next, end, brk);
      LaterTwice(b0, b1, Now());
      BranchParked(lot, lot1, Lot(), added, skip, site, brk, end);
      Regroup(old(emitted), CaseTestCode(arm, next), BlockCode(low, at + 24, brk) + [Jmp(end)]);
    }

    // ---- loops ----

    method EmitLoop(s: Stmt, ghost brk: nat)
      requires s.Loop? && Valid() && FitsStmt(s)
      modifies this, builder, strings
      ensures Wrote(StmtCode(LowerStmt(s, constLocals), old(Here()), brk), SizeStmt(LowerStmt(s, constLocals)))
      ensures pending == old(pending) && loopBreaks == old(loopBreaks) && strayBreaks == old(strayBreaks)
      ensures constLocals == old(constLocals)
      decreases s, 0
    {
      hide ListText, Sound, Later, Awaiting, CondCode, BlockCode, SizeCond, SizeBlock, LowerCond, LowerBlock, FitsBlock,
        FitsExpr;
      ghost var b0 := Now();
      ghost var at, cond, body := Here(), LowerCond(s.cond, constLocals), LowerBlock(s.body, constLocals);
      ghost var end := at + SizeCond(cond) + SizeBlock(body) + 5;
      PendingBelow(Now());
      var start := Here();
      assert Boundary(Now(), start);
      var exit := EmitCondition(s.cond, end);
      ghost var m, p, b1 := instrs, Here(), Now();
      LaterBoundary(b0, b1, start);
      ghost var added := EmitLoopBody(s.body, start, end);
      ghost var b2 := Now();
      LaterTwice(b0, b1, b2);
      LaterGrown(b1, b2);
      if s.cond.Some? {
        WaitsStill(m, instrs, exit, end);
      }
      CloseLoop(s.cond.Some?, exit, p, added, old(pending));
      LaterTwice(b0, b2, Now());
      LoopGlue(old(emitted), cond, body, at, p, end, brk);
    }

    /** The exit jump and the jumps of the innermost list go here. */
    method CloseLoop(conditional: bool, exit: nat, ghost p: nat, ghost added: seq<nat>, ghost before: set<nat>)
      requires Valid() && loopBreaks != [] && loopBreaks[|loopBreaks| - 1] == added
      requires Awaiting(added, instrs, p, Here(), Here()) && forall e | e in before :: e <= p
      requires conditional ==> Waits(instrs, exit, Here()) && exit !in before && exit <= p
      requires conditional ==> pending == before + {exit} + SiteSet(added)
      requires !conditional ==> pending == before + SiteSet(added)
      modifies this`loopBreaks, this`pending, builder
      ensures Wrote([], 0) && loopBreaks == old(loopBreaks)[..|old(loopBreaks)| - 1] && pending == before
    {
      hide ListText;
      assert before !! SiteSet(added);
      if conditional {
        assert exit !in SiteSet(added);
        Patch(exit, Here());
      }
      PatchAll(loopBreaks[|loopBreaks| - 1], p, Here());
      loopBreaks := loopBreaks[..|loopBreaks| - 1];
    }

    /** The exit test of a loop that has one. */
    method EmitCondition(cond: Option<Expr>, ghost end: nat) returns (exit: nat)
      requires Valid() && (cond.Some? ==> FitsExpr(cond.value))
      modifies this`instrs, this`emitted, this`pending, this`failed, this`owed, builder, strings
      ensures Wrote(CondCode(LowerCond(cond, constLocals), old(Here()), end), SizeCond(LowerCond(cond, constLocals)))
      ensures cond.Some? ==>
        Waits(instrs, exit, end) && exit !in old(pending) && pending == old(pending) + {exit} && exit <= Here()
      ensures cond.None? ==> pending == old(pending)
    {
      hide ListText;
      exit := 0;
      if cond.Some? {
        exit := EmitTest(cond.value, NoHint, end);
        assert TestCode(NoHint, end) == [JmpIfFalse(end)];
      }
    }

    /** The body of a loop and its jump back; the `break` jumps of the body are in a new
        innermost list. */
    method EmitLoopBody(body: seq<Stmt>, start: nat, ghost end: nat) returns (ghost added: seq<nat>)
      requires Valid() && FitsBlock(body) && Boundary(Now(), start)
      modifies this, builder, strings
      ensures Wrote(BlockCode(LowerBlock(body, constLocals), old(Here()), end) + [Jmp(start)],
                    SizeBlock(LowerBlock(body, constLocals)) + 5)
      ensures loopBreaks == old(loopBreaks) + [added] && strayBreaks == old(strayBreaks)
        && constLocals == old(constLocals)
      ensures Awaiting(added, instrs, old(Here()), Here(), end) && pending == old(pending) + SiteSet(added)
      decreases body, 3
    {
      hide ListText, Sound, Later, LowerBlock, BlockCode, SizeBlock, Awaiting, FitsBlock;
      ghost var p, low, b0 := Here(), LowerBlock(body, constLocals), Now();
      loopBreaks := loopBreaks + [[]];
      assert Now() == b0;
      added := EmitBlock(body, end);
      assert [] + added == added;
      ghost var m, q, b1 := instrs, Here(), Now();
      LaterBoundary(b0, b1, start);
      Emit(Jmp(start));
      LaterTwice(b0, b1, Now());
      LaterGrown(b1, Now());
      AwaitingGrown(added, m, instrs, p, q, p, Here(), end);
      Regroup(old(emitted), BlockCode(low, p, end), [Jmp(start)]);
    }

    // ---- monitors ----

    method EmitMonitor(s: Stmt, ghost brk: nat) returns (ghost added: seq<nat>)
      requires s.Monitor? && Valid() && FitsStmt(s)
      modifies this, builder, strings
      ensures Wrote(StmtCode(LowerStmt(s, constLocals), old(Here()), brk), SizeStmt(LowerStmt(s, constLocals)))
      ensures Parked(added, brk)
      decreases s, 0
    {
      hide ListText, Sound, Parks, BlockCode, SizeBlock;
      ghost var at, lot, body, handler := Here(), Lot(), LowerBlock(s.body, constLocals),
        LowerBlock(s.handler, constLocals);
      ghost var exit := at + 5 + SizeBlock(body);
      ghost var end := exit + 15 + SizeBlock(handler);
      var skip: nat;
      skip, added := EmitProtected(s.body, s.trap, exit, end, brk);
      ghost var lot1 := Lot();
      ghost var more := EmitHandler(s.handler, skip, end, brk);
      MonitorParked(lot, lot1, Lot(), added, more, skip, brk);
      added := added + more;
      MonitorGlue(old(emitted), body, s.trap, handler, at, exit, end, brk);
    }

    /** The protected block, the jump over the handler, and the handler's entry. */
    method EmitProtected(body: seq<Stmt>, trap: string, ghost exit: nat, ghost end: nat, ghost brk: nat)
      returns (skip: nat, ghost added: seq<nat>)
      requires Valid() && FitsBlock(body) && TextFits(trap)
        && exit == Here() + 5 + SizeBlock(LowerBlock(body, constLocals))
      modifies this, builder, strings
      ensures Wrote(ProtectedCode(LowerBlock(body, constLocals), trap, old(Here()), exit, end, brk),
                    SizeBlock(LowerBlock(body, constLocals)) + 20)
      ensures Waits(instrs, skip, end) && skip <= Here()
      ensures Parks(old(Lot()), Lot().(pending := pending - {skip}), added, brk) && skip in pending
      ensures constLocals == old(constLocals)
      decreases body, 3
    {
      hide ListText, Sound, Later, LowerBlock, BlockCode, SizeBlock, FitsBlock, Parks;
      ghost var at, low, lot, b0 := Here(), LowerBlock(body, constLocals), Lot(), Now();
      PendingBelow(b0);
      NewHere(b0);
      var handlerOperand := EmitJump(MonitorEnter(exit + 6), 58);
      ghost var lot1, b1 := Lot(), Now();
      added := EmitBlock(body, brk);
      ghost var lot2, b2 := Lot(), Now();
      LaterTwice(b0, b1, b2);
      LaterGrown(b1, b2);
      WaitsStill(lot1.instrs, instrs, handlerOperand, exit + 6);
      ParkedPending(lot1, lot2, added, brk, handlerOperand);
      skip := EmitLeave(handlerOperand, trap, end);
      LaterTwice(b0, b2, Now());
      LaterGrown(b2, Now());
      ProtectedParked(lot, lot1, lot2, Lot(), added, handlerOperand, skip, brk);
      Regroup(old(emitted) + [MonitorEnter(exit + 6)], BlockCode(low, at + 5, brk), LeaveCode(trap, end));
      Regroup(old(emitted), [MonitorEnter(exit + 6)], BlockCode(low, at + 5, brk) + LeaveCode(trap, end));
    }

    /** The handler, which the protected block's jump goes around. */
    method EmitHandler(handler: seq<Stmt>, skip: nat, ghost end: nat, ghost brk: nat) returns (ghost added: seq<nat>)
      requires Valid() && FitsBlock(handler) && skip in pending && skip <= Here() && Waits(instrs, skip, end)
      requires end == Here() + SizeBlock(LowerBlock(handler, constLocals))
      modifies this, builder, strings
      ensures Wrote(BlockCode(LowerBlock(handler, constLocals), old(Here()), brk),
        SizeBlock(LowerBlock(handler, constLocals)))
      ensures Parks(old(Lot()).(pending := old(pending) - {skip}), Lot(), added, brk) && constLocals == old(constLocals)
      decreases handler, 3
    {
      hide ListText, Sound, Later, LowerBlock, BlockCode, SizeBlock, FitsBlock, Parks;
      ghost var lot, b0 := Lot(), Now();
      added := EmitBlock(handler, brk);
      ghost var b1 := Now();
      LaterGrown(b0, b1);
      ParkedPending(lot, Lot(), added, brk, skip);
      WaitsStill(lot.instrs, instrs, skip, end);
      ParkedBehind(lot, Lot(), added, brk, skip);
      Patch(skip, Here());
      LaterTwice(b0, b1, Now());
    }

    /** What stands between the protected block and the handler. */
    method EmitExit(ghost end: nat) returns (skip: nat)
      requires Valid()
      modifies this`instrs, this`emitted, this`pending, builder, strings
      ensures Wrote([MonitorExit, Jmp(end)], 6) && Waits(instrs, skip, end) && old(Here()) < skip <= Here()
      ensures pending == old(pending) + {skip} && skip !in old(pending)
    {
      hide ListText, Sound, Later;
      ghost var b0 := Now();
      PendingBelow(b0);
      Emit(MonitorExit);
      ghost var b1 := Now();
      skip := EmitJump(Jmp(end), 31);
      LaterTwice(b0, b1, Now());
      assert old(emitted) + [MonitorExit] + [Jmp(end)] == old(emitted) + [MonitorExit, Jmp(end)];
    }

    method EmitLeave(handlerOperand: nat, trap: string, ghost end: nat) returns (skip: nat)
      requires Valid() && TextFits(trap) && handlerOperand in pending && Waits(instrs, handlerOperand, Here() + 6)
      modifies this`instrs, this`emitted, this`pending, builder, strings
      ensures Wrote(LeaveCode(trap, end), 15) && Waits(instrs, skip, end) && old(Here()) < skip <= Here()
      ensures pending == old(pending) + {skip} - {handlerOperand}
    {
      hide ListText, Sound, Later, Waits;
      ghost var b0 := Now();
      skip := EmitExit(end);
      ghost var b1 := Now();
      WaitsLater(b0, b1, handlerOperand, Here());
      Patch(handlerOperand, Here());
      ghost var b2 := Now();
      LaterTwice(b0, b1, b2);
      Emit(Store(trap));
      LaterTwice(b1, b2, Now());
      LaterTwice(b0, b2, Now());
      WaitsLater(b1, Now(), skip, end);
      assert old(emitted) + [MonitorExit, Jmp(end)] + [Store(trap)] == old(emitted) + LeaveCode(trap, end);
    }

    // ---- whole blobs ----

    /** Nothing has been emitted yet. */
    ghost predicate Blank()
      reads this, builder, strings
    {
      Valid() && emitted == [] && Here() == 0 && pending == {} && loopBreaks == [] && strayBreaks == []
        && constLocals == map[]
        && owed == 0 && anchors == [] && seen == 0
    }

    /** Compile a function body: bind the parameters, emit the statements, and fall
        through to an implicit `return null`. */
    method EmitFunctionCode(f: Function)
      requires Blank() && FitsFunction(f)
      modifies this, builder, strings
      ensures Advanced() && pending == {} && emitted == FunctionCode(LowerFunction(f)) && Inside(Now())
      ensures Here() == 9 * |f.params| + SizeBlock(LowerBlock(f.body, map[])) + 2
      ensures f.body != [] && places(0).line > 0 ==> StartsWith(anchors, 9 * |f.params|, places(0))
    {
      hide ListText, Sound, PrologueCode, BlockCode, SizeBlock, LowerBlock;
      ghost var start, low := 9 * |f.params|, LowerBlock(f.body, map[]);
      ghost var end := start + SizeBlock(low);
      EmitPrologue(f.params);
      EmitBody(f.body, end);
      EmitTwo(Push(NullLit), Ret);
      Regroup(PrologueCode(f.params), BlockCode(low, start, end), [Push(NullLit), Ret]);
    }

    /** Compile the top-level statements of a package. */
    method EmitToplevel(body: seq<Stmt>)
      requires Blank() && FitsBlock(body)
      modifies this, builder, strings
      ensures Advanced() && pending == {} && emitted == TopCode(LowerBlock(body, map[])) && Inside(Now())
      ensures Here() == SizeBlock(LowerBlock(body, map[])) + 1
      ensures body != [] && places(0).line > 0 ==> StartsWith(anchors, 0, places(0))
    {
      hide ListText, Sound, Later, LowerBlock, BlockCode, SizeBlock, FitsBlock;
      ghost var b0 := Now();
      EmitBody(body, SizeBlock(LowerBlock(body, map[])));
      ghost var b1 := Now();
      assert emitted == BlockCode(LowerBlock(body, map[]), 0, SizeBlock(LowerBlock(body, map[])));
      Emit(Instr.Halt);
      LaterTwice(b0, b1, Now());
    }

    /** The arguments were pushed left to right: bind the last parameter first. */
    method EmitPrologue(params: seq<string>)
      requires Blank() && forall p | p in params :: TextFits(p)
      modifies this`instrs, this`emitted, builder, strings
      ensures Wrote(PrologueCode(params), 9 * |params|)
    {
      hide ListText, Sound, Later, Encodable;
      var i := |params|;
      ghost var done, b0 := [], Now();
      LaterSelf(b0);
      assert params[..i] == params;
      while i > 0
        invariant 0 <= i <= |params| && Wrote(done, 9 * (|params| - i))
        invariant PrologueCode(params) == done + PrologueCode(params[..i])
      {
        i := i - 1;
        ghost var b1 := Now();
        NameFits(params[i]);
        Emit(Store(params[i]));
        LaterTwice(b0, b1, Now());
        assert params[..i + 1][..i] == params[..i];
        Regroup(done, [Store(params[i])], PrologueCode(params[..i]));
        done := done + [Store(params[i])];
      }
      assert params[..0] == [] && done + [] == done;
    }

    /** Statements, and the `break` jumps outside any loop, which go behind them. */
    method EmitBody(body: seq<Stmt>, ghost end: nat)
      requires Valid() && FitsBlock(body) && loopBreaks == [] && strayBreaks == [] && pending == {}
        && constLocals == map[]
      requires end == Here() + SizeBlock(LowerBlock(body, map[]))
      modifies this, builder, strings
      ensures Wrote(BlockCode(LowerBlock(body, map[]), old(Here()), end), SizeBlock(LowerBlock(body, map[])))
        && pending == {}
      ensures body != [] ==> Recorded(Anchor(old(anchors), old(Here()), places(old(seen))), old(Here()), anchors)
    {
      hide ListText, Sound, Awaiting, BlockCode, SizeBlock, LowerBlock, FitsBlock, Recorded, Anchor;
      ghost var at := Here();
      ghost var added := EmitBlock(body, end);
      assert [] + added == added;
      PatchAll(strayBreaks, at, Here());
      strayBreaks := [];
    }
  }

  function CompareCode(arm: Case): seq<Instr> {
    [Dup, Push(EnumLit(arm.enumName, arm.member))] + [Do(Binary(Eq))]
  }

  lemma NameFits(name: string)
    requires TextFits(name)
    ensures Encodable(Load(name)) && Encodable(Store(name)) && Encodable(Do(Binary(Add)))
  {
  }

  function LeaveCode(trap: string, end: nat): seq<Instr> {
    [MonitorExit, Jmp(end), Store(trap)]
  }

  predicate FitsFunction(f: Function) {
    FitsBlock(f.body) && forall p | p in f.params :: TextFits(p)
  }

  ghost function ProtectedCode(body: seq<Stmt>, trap: string, at: nat, exit: nat, end: nat, brk: nat): seq<Instr> {
    [MonitorEnter(exit + 6)] + (BlockCode(body, at + 5, brk) + LeaveCode(trap, end))
  }

  lemma MonitorGlue(code: seq<Instr>, body: seq<Stmt>, trap: string, handler: seq<Stmt>, at: nat, exit: nat, end: nat,
      brk: nat)
    requires exit == at + 5 + SizeBlock(body) && end == exit + 15 + SizeBlock(handler)
    ensures code + ProtectedCode(body, trap, at, exit, end, brk) + BlockCode(handler, exit + 15, brk)
         == code + StmtCode(Monitor(body, trap, handler), at, brk)
    ensures SizeBlock(body) + 20 + SizeBlock(handler) == SizeStmt(Monitor(body, trap, handler))
  {
    var enter, first, leave := [MonitorEnter(exit + 6)], BlockCode(body, at + 5, brk), LeaveCode(trap, end);
    var last := BlockCode(handler, exit + 15, brk);
    Regroup(code, enter + (first + leave), last);
    Regroup(enter, first + leave, last);
    Regroup(first, leave, last);
  }

  /** What the generator remembers about jumps whose targets are open. */
  datatype Park = Park(loops: seq<seq<nat>>, strays: seq<nat>, pending: set<nat>, instrs: map<nat, Instr>, here: nat)

  /** Constants that differ at most in one counter's binding. */
  ghost predicate Rebound(k: Consts, k1: Consts, counter: string) {
    k1 - {counter} == k - {counter}
  }

  lemma ReboundSet(k: Consts, k1: Consts, counter: string, v: int)
    requires Rebound(k, k1, counter)
    ensures k1[counter := v] == k[counter := v] && Rebound(k, k1[counter := v], counter)
  {
    var m, m1 := k - {counter}, k1 - {counter};
    forall n: string | n != counter
      ensures (n in k1 <==> n in k) && (n in k ==> k1[n] == k[n])
    {
      assert (n in m <==> n in k) && (n in m1 <==> n in k1);
      assert (n in k ==> m[n] == k[n]) && (n in k1 ==> m1[n] == k1[n]);
    }
  }

  /** Putting the old binding back restores the constants. */
  lemma ReboundRestored(k: Consts, k1: Consts, counter: string)
    requires Rebound(k, k1, counter)
    ensures counter in k ==> k1[counter := k[counter]] == k
    ensures counter !in k ==> k1 - {counter} == k
  {
    if counter in k {
      ReboundSet(k, k1, counter, k[counter]);
    }
  }

  ghost predicate Parks(p: Park, q: Park, added: seq<nat>, brk: nat) {
    && q.loops == ParkedLoops(p.loops, added)
    && q.strays == ParkedStrays(p.loops, p.strays, added)
    && Awaiting(added, q.instrs, p.here, q.here, brk)
    && q.pending == p.pending + SiteSet(added)
  }

  lemma ParkedPending(p: Park, q: Park, added: seq<nat>, brk: nat, e: nat)
    requires Parks(p, q, added, brk) && e in p.pending
    ensures e in q.pending
  {
  }

  /** What was pending before can be patched on its own. */
  lemma ParkedBehind(p: Park, q: Park, added: seq<nat>, brk: nat, e: nat)
    requires Parks(p, q, added, brk) && e <= p.here
    ensures Parks(p.(pending := p.pending - {e}), q.(pending := q.pending - {e}), added, brk)
  {
    assert e !in SiteSet(added);
  }

  lemma BlockGrows(code: seq<Instr>, done: seq<Stmt>, s: Stmt, at: nat, mid: nat, brk: nat)
    requires mid == at + SizeBlock(done)
    ensures code + BlockCode(done, at, brk) + StmtCode(s, mid, brk) == code + BlockCode(done + [s], at, brk)
    ensures SizeBlock(done) + SizeStmt(s) == SizeBlock(done + [s])
  {
    SizeBlockSnoc(done, s);
    BlockCodeSnoc(done, s, at, brk);
    Regroup(code, BlockCode(done, at, brk), StmtCode(s, mid, brk));
  }

  /** The same with the jumps at `ends` waiting for `end` besides, in a list of their own. */
  ghost predicate ParksEnds(p: Park, q: Park, added: seq<nat>, ends: seq<nat>, brk: nat, end: nat) {
    && q.loops == ParkedLoops(p.loops, added)
    && q.strays == ParkedStrays(p.loops, p.strays, added)
    && Awaiting(added, q.instrs, p.here, q.here, brk)
    && Awaiting(ends, q.instrs, p.here, q.here, end)
    && SiteSet(added) !! SiteSet(ends)
    && q.pending == p.pending + SiteSet(added) + SiteSet(ends)
  }

  lemma ArmParked(p: Park, q: Park, r: Park, added: seq<nat>, skip: nat, site: nat, brk: nat, end: nat)
    requires Parks(p, q, added, brk) && Grown(q.instrs, r.instrs) && skip <= p.here <= q.here < site <= r.here
    requires r.loops == q.loops && r.strays == q.strays && r.pending == q.pending + {site} - {skip}
    requires site - 1 in r.instrs && r.instrs[site - 1] == Jmp(end)
    ensures ParksEnds(p.(pending := p.pending - {skip}), r, added, [site], brk, end)
  {
    AwaitingGrown(added, q.instrs, r.instrs, p.here, q.here, p.here, r.here, brk);
    assert SiteSet([site]) == {site};
  }

  lemma BranchParked(p: Park, q: Park, r: Park, added: seq<nat>, skip: nat, site: nat, brk: nat, end: nat)
    requires ParksEnds(q.(pending := q.pending - {skip}), r, added, [site], brk, end) && p.here <= q.here
    requires q.loops == p.loops && q.strays == p.strays && q.pending == p.pending + {skip} && skip !in p.pending
    ensures ParksEnds(p, r, added, [site], brk, end)
  {
    AwaitingGrown(added, r.instrs, r.instrs, q.here, r.here, p.here, r.here, brk);
    AwaitingGrown([site], r.instrs, r.instrs, q.here, r.here, p.here, r.here, end);
  }

  /** The list of ends can be patched on its own. */
  lemma EndsWith(p: Park, q: Park, r: Park, before: seq<nat>, more: seq<nat>, ends: seq<nat>, brk: nat, end: nat)
    requires ParksEnds(p, q, before, ends, brk, end) && Parks(q, r, more, brk)
    requires Grown(q.instrs, r.instrs) && p.here <= q.here <= r.here && forall e | e in p.pending :: e <= p.here
    ensures Awaiting(ends, r.instrs, p.here, r.here, end) && SiteSet(ends) <= r.pending
    ensures Parks(p, r.(pending := r.pending - SiteSet(ends)), before + more, brk)
  {
    ParkedTwice(p.loops, p.strays, before, more);
    AwaitingJoin(before, more, q.instrs, r.instrs, p.here, q.here, r.here, brk);
    AwaitingGrown(ends, q.instrs, r.instrs, p.here, q.here, p.here, r.here, end);
    assert SiteSet(more) !! SiteSet(ends);
    assert p.pending !! SiteSet(ends);
  }

  /** Something emitted before and behind changes nothing about parked jumps. */
  lemma ParksInside(p: Park, p1: Park, q: Park, q1: Park, added: seq<nat>, brk: nat)
    requires Parks(p1, q, added, brk) && p.here <= p1.here && q.here <= q1.here && Grown(q.instrs, q1.instrs)
    requires p1.loops == p.loops && p1.strays == p.strays && p1.pending == p.pending
    requires q1.loops == q.loops && q1.strays == q.strays && q1.pending == q.pending
    ensures Parks(p, q1, added, brk)
  {
    AwaitingGrown(added, q.instrs, q1.instrs, p1.here, q.here, p.here, q1.here, brk);
  }

  lemma ProtectedParked(p: Park, q: Park, r: Park, r1: Park, added: seq<nat>, operand: nat, skip: nat, brk: nat)
    requires Parks(q, r, added, brk) && q.loops == p.loops && q.strays == p.strays && q.pending == p.pending + {operand}
    requires Grown(r.instrs, r1.instrs) && p.here <= q.here <= r.here < skip <= r1.here && operand <= q.here
    requires operand !in p.pending && forall e | e in p.pending :: e <= p.here
    requires r1.loops == r.loops && r1.strays == r.strays && r1.pending == r.pending + {skip} - {operand}
    ensures Parks(p, r1.(pending := r1.pending - {skip}), added, brk) && skip in r1.pending
  {
    AwaitingGrown(added, r.instrs, r1.instrs, q.here, r.here, p.here, r1.here, brk);
    assert operand !in SiteSet(added) && skip !in SiteSet(added) && skip !in p.pending;
    assert r1.pending - {skip} == p.pending + SiteSet(added);
  }

  lemma MonitorParked(p: Park, q: Park, r: Park, a: seq<nat>, b: seq<nat>, skip: nat, brk: nat)
    requires Parks(p, q.(pending := q.pending - {skip}), a, brk) && Parks(q.(pending := q.pending - {skip}), r, b, brk)
    requires Grown(q.instrs, r.instrs) && p.here <= q.here <= r.here
    ensures Parks(p, r, a + b, brk)
  {
    ParkedTwice(p.loops, p.strays, a, b);
    AwaitingJoin(a, b, q.instrs, r.instrs, p.here, q.here, r.here, brk);
  }

  lemma EndsNone(p: Park, brk: nat, end: nat)
    ensures ParksEnds(p, p, [], [], brk, end)
  {
    ParkedNone(p.loops, p.strays);
  }

  lemma EndsTwice(p: Park, q: Park, r: Park, a: seq<nat>, b: seq<nat>, ea: seq<nat>, eb: seq<nat>, brk: nat, end: nat)
    requires ParksEnds(p, q, a, ea, brk, end) && ParksEnds(q, r, b, eb, brk, end)
    requires Grown(q.instrs, r.instrs) && p.here <= q.here <= r.here
    ensures ParksEnds(p, r, a + b, ea + eb, brk, end)
  {
    ParkedTwice(p.loops, p.strays, a, b);
    AwaitingJoin(a, b, q.instrs, r.instrs, p.here, q.here, r.here, brk);
    AwaitingJoin(ea, eb, q.instrs, r.instrs, p.here, q.here, r.here, end);
  }

  lemma ParksTwice(p: Park, q: Park, r: Park, a: seq<nat>, b: seq<nat>, brk: nat)
    requires Parks(p, q, a, brk) && Parks(q, r, b, brk) && Grown(q.instrs, r.instrs) && p.here <= q.here <= r.here
    ensures Parks(p, r, a + b, brk)
  {
    ParkedTwice(p.loops, p.strays, a, b);
    AwaitingJoin(a, b, q.instrs, r.instrs, p.here, q.here, r.here, brk);
  }

  /** What `LowerBlock` makes of the statement at `i`. */
  lemma NextLowered(ss: seq<Stmt>, i: nat, k: Consts)
    requires i < |ss|
    ensures (i + 1 < |ss| && MatchCounted(ss[i], ss[i + 1]).Some?) ==>
      LowerBlock(ss[i..], k)
        == [Block(Copies(Work(ss[i + 1]), MatchCounted(ss[i], ss[i + 1]).value, 0, k))] + LowerBlock(ss[i + 2..], k)
    ensures !(i + 1 < |ss| && MatchCounted(ss[i], ss[i + 1]).Some?) ==>
      LowerBlock(ss[i..], k) == [LowerStmt(ss[i], k)] + LowerBlock(ss[i + 1..], k)
  {
    var tail := ss[i..];
    assert tail[0] == ss[i] && tail[1..] == ss[i + 1..];
    if i + 1 < |ss| {
      assert tail[1] == ss[i + 1] && tail[2..] == ss[i + 2..];
    }
  }

  /** The constants an unrolled counter takes are 64-bit integers. */
  lemma CountedFits(init: Stmt, loop: Stmt)
    requires MatchCounted(init, loop).Some? && FitsStmt(init) && FitsStmt(loop)
    ensures var c := MatchCounted(init, loop).value; IsI64(c.start) && IsI64(c.start + c.trips - 1)
  {
    var bound := loop.cond.value.operands[1];
    assert FitsExpr(init.value);
    assert FitsExpr(bound) by {
      assert FitsExpr(loop.cond.value) && FitsExprs(loop.cond.value.operands) && bound in loop.cond.value.operands;
    }
    assert OperandOf(Push(bound.lit)) == LongOperand(bound.lit.i);
  }

  lemma NoStmts(k: Consts, at: nat, brk: nat)
    ensures LowerStmts([], k) == [] && BlockCode([], at, brk) == [] && SizeBlock([]) == 0
  {
  }

  lemma FitsAt(loop: Stmt, i: nat)
    requires loop.Loop? && FitsStmt(loop) && i < |loop.body|
    ensures FitsStmt(loop.body[i])
  {
    assert loop.body[i] in loop.body;
  }

  lemma {:induction false} LowerStmtsJoin(a: seq<Stmt>, s: Stmt, k: Consts)
    ensures LowerStmts(a + [s], k) == LowerStmts(a, k) + [LowerStmt(s, k)]
  {
    if a == [] {
      assert a + [s] == [s];
    } else {
      LowerStmtsJoin(a[1..], s, k);
      assert (a + [s])[1..] == a[1..] + [s];
    }
  }

  lemma LowerStmtsSnoc(ss: seq<Stmt>, i: nat, k: Consts)
    requires i < |ss|
    ensures LowerStmts(ss[..i + 1], k) == LowerStmts(ss[..i], k) + [LowerStmt(ss[i], k)]
  {
    assert ss[..i + 1] == ss[..i] + [ss[i]];
    LowerStmtsJoin(ss[..i], ss[i], k);
  }

  function ParkedLoops(loops: seq<seq<nat>>, added: seq<nat>): seq<seq<nat>> {
    if loops == [] then [] else loops[..|loops| - 1] + [loops[|loops| - 1] + added]
  }

  function ParkedStrays(loops: seq<seq<nat>>, strays: seq<nat>, added: seq<nat>): seq<nat> {
    if loops == [] then strays + added else strays
  }

  lemma ParkedNone(loops: seq<seq<nat>>, strays: seq<nat>)
    ensures ParkedLoops(loops, []) == loops && ParkedStrays(loops, strays, []) == strays
  {
    if loops != [] {
      assert loops == loops[..|loops| - 1] + [loops[|loops| - 1]];
      assert loops[|loops| - 1] + [] == loops[|loops| - 1];
    }
  }

  lemma ParkedTwice(loops: seq<seq<nat>>, strays: seq<nat>, a: seq<nat>, b: seq<nat>)
    ensures ParkedLoops(ParkedLoops(loops, a), b) == ParkedLoops(loops, a + b)
    ensures ParkedStrays(ParkedLoops(loops, a), ParkedStrays(loops, strays, a), b) == ParkedStrays(loops, strays, a + b)
  {
    if loops != [] {
      var last := loops[|loops| - 1];
      assert (last + a) + b == last + (a + b);
      assert ParkedLoops(loops, a)[..|loops| - 1] == loops[..|loops| - 1];
    } else {
      assert (strays + a) + b == strays + (a + b);
    }
  }

  /** An arm of an `if` chain without the arms behind it. */
  function BranchCode(ch: Chain, at: nat, end: nat, brk: nat): seq<Instr>
    requires ch.Elif?
  {
    ExprCode(ch.cond, at) + TestCode(ch.hint, NextArm(ch, at))
      + (BlockCode(ch.body, ArmStart(ch, at), brk) + [Jmp(end)])
  }

  lemma BranchGlue(code: seq<Instr>, ch: Chain, at: nat, end: nat, brk: nat)
    requires ch.Elif?
    ensures code + (ExprCode(ch.cond, at) + TestCode(ch.hint, NextArm(ch, at)))
      + (BlockCode(ch.body, ArmStart(ch, at), brk) + [Jmp(end)]) == code + BranchCode(ch, at, end, brk)
  {
  }

  lemma ChainStep(ch: Chain, at: nat, end: nat, brk: nat)
    requires ch.Elif?
    ensures ChainCode(ch, at, end, brk) == BranchCode(ch, at, end, brk) + ChainCode(ch.rest, NextArm(ch, at), end, brk)
    ensures at + SizeChain(ch) == NextArm(ch, at) + SizeChain(ch.rest)
  {
    var test, code, tail := TestCode(ch.hint, NextArm(ch, at)), BlockCode(ch.body, ArmStart(ch, at), brk), [Jmp(end)];
    var rest := ChainCode(ch.rest, NextArm(ch, at), end, brk);
    Regroup(ExprCode(ch.cond, at) + test, code + tail, rest);
    Regroup(code, tail, rest);
    Regroup(ExprCode(ch.cond, at), test, code + (tail + rest));
  }

  lemma MatchGlue(code: seq<Instr>, scrutinee: Expr, cases: seq<Case>, at: nat, first: nat, brk: nat)
    requires first == at + SizeExpr(scrutinee)
    ensures code + ExprCode(scrutinee, at) + CasesCode(cases, first, first + SizeCases(cases), brk) + [Pop]
         == code + StmtCode(Match(scrutinee, cases), at, brk)
    ensures SizeExpr(scrutinee) + SizeCases(cases) + 1 == SizeStmt(Match(scrutinee, cases))
  {
    var arms := CasesCode(cases, first, first + SizeCases(cases), brk);
    Regroup(code + ExprCode(scrutinee, at), arms, [Pop]);
    Regroup(code, ExprCode(scrutinee, at), arms + [Pop]);
  }

  lemma LoopGlue(code: seq<Instr>, cond: Option<Expr>, body: seq<Stmt>, at: nat, p: nat, end: nat, brk: nat)
    requires p == at + SizeCond(cond) && end == p + SizeBlock(body) + 5
    ensures code + CondCode(cond, at, end) + (BlockCode(body, p, end) + [Jmp(at)])
      == code + StmtCode(Loop(cond, body), at, brk)
    ensures SizeCond(cond) + SizeBlock(body) + 5 == SizeStmt(Loop(cond, body))
  {
    Regroup(code, CondCode(cond, at, end), BlockCode(body, p, end) + [Jmp(at)]);
  }

  /** What `LowerCases` makes of one arm. */
  function LowerCase(arm: Case, k: Consts): Case {
    Case(arm.enumName, arm.member, LowerBlock(arm.body, k))
  }

  lemma {:induction false} LowerCasesAt(cases: seq<Case>, i: nat, k: Consts)
    requires i < |cases|
    ensures |LowerCases(cases, k)| == |cases| && LowerCases(cases, k)[i] == LowerCase(cases[i], k)
  {
    LowerCasesLength(cases, k);
    if i > 0 {
      LowerCasesAt(cases[1..], i - 1, k);
    }
  }

  lemma {:induction false} LowerCasesLength(cases: seq<Case>, k: Consts)
    ensures |LowerCases(cases, k)| == |cases|
  {
    if cases != [] {
      LowerCasesLength(cases[1..], k);
    }
  }

  lemma ChainGrows(code: seq<Instr>, all: seq<Instr>, done: seq<Instr>, ch: Chain, at: nat, end: nat, brk: nat)
    requires ch.Elif? && all == done + ChainCode(ch, at, end, brk)
    ensures all == done + BranchCode(ch, at, end, brk) + ChainCode(ch.rest, NextArm(ch, at), end, brk)
    ensures code + done + BranchCode(ch, at, end, brk) == code + (done + BranchCode(ch, at, end, brk))
    ensures at + SizeChain(ch) == NextArm(ch, at) + SizeChain(ch.rest)
  {
    ChainStep(ch, at, end, brk);
    Regroup(done, BranchCode(ch, at, end, brk), ChainCode(ch.rest, NextArm(ch, at), end, brk));
    Regroup(code, done, BranchCode(ch, at, end, brk));
  }

  lemma CasesGrow(code: seq<Instr>, low: seq<Case>, i: nat, at: nat, p: nat, end: nat, brk: nat)
    requires i < |low| && p == at + SizeCases(low[..i])
    ensures code + CasesCode(low[..i], at, end, brk) + CaseCode(low[i], p, end, brk)
         == code + CasesCode(low[..i + 1], at, end, brk)
    ensures SizeCases(low[..i + 1]) == SizeCases(low[..i]) + 24 + SizeBlock(low[i].body) + 5
  {
    assert low[..i + 1] == low[..i] + [low[i]];
    SizeCasesSnoc(low[..i], low[i]);
    CasesCodeSnoc(low[..i], low[i], at, end, brk);
    Regroup(code, CasesCode(low[..i], at, end, brk), CaseCode(low[i], p, end, brk));
  }

  lemma LogicalGlue(done: seq<Instr>, at: nat, p: nat, end: nat, isAnd: bool, left: Expr, right: Expr)
    requires p == at + SizeExpr(left) + 7 && end == p + SizeExpr(right)
    ensures done + ExprCode(left, at) + ShortcutCode(isAnd, end) + ExprCode(right, p)
         == done + ExprCode(Logical(isAnd, left, right), at)
  {
    Regroup(done + ExprCode(left, at), ShortcutCode(isAnd, end), ExprCode(right, p));
    Regroup(done, ExprCode(left, at), ShortcutCode(isAnd, end) + ExprCode(right, p));
  }

  lemma CallGlue(done: seq<Instr>, at: nat, p: nat, callee: Expr, args: seq<Expr>)
    requires p == at + SizeExpr(callee)
    ensures done + ExprCode(callee, at) + ExprsCode(args, p) + [CallN(|args|)]
      == done + ExprCode(Call(callee, args), at)
  {
    Regroup(done + ExprCode(callee, at), ExprsCode(args, p), [CallN(|args|)]);
    Regroup(done, ExprCode(callee, at), ExprsCode(args, p) + [CallN(|args|)]);
  }

  function ShortcutCode(isAnd: bool, end: nat): seq<Instr> {
    [Dup, ShortcutJump(isAnd, end), Pop]
  }

  lemma {:induction false} LowerExprsJoin(a: seq<Expr>, e: Expr, k: Consts)
    ensures LowerExprs(a + [e], k) == LowerExprs(a, k) + [LowerExpr(e, k)]
  {
    if a == [] {
      assert a + [e] == [e];
    } else {
      LowerExprsJoin(a[1..], e, k);
      assert (a + [e])[1..] == a[1..] + [e];
    }
  }

  lemma LowerExprsSnoc(es: seq<Expr>, i: nat, k: Consts)
    requires i < |es|
    ensures LowerExprs(es[..i + 1], k) == LowerExprs(es[..i], k) + [LowerExpr(es[i], k)]
  {
    assert es[..i + 1] == es[..i] + [es[i]];
    LowerExprsJoin(es[..i], es[i], k);
  }
}
