/** Where the code generator puts things.

    `SizeX` is the number of bytes a construct takes and `XAt` says which instruction
    stands at which byte offset once the construct is lowered at offset `at`, every jump
    carrying its final target. How the emitter gets there through placeholders and
    patches is in `Emitter`. */
module Layout {
  import opened Syntax
  import opened Machine

  /** Encoded width of a type operand. */
  function TypeWidth(t: TypeNode): nat {
    match t
    case Primitive(_) => 2
    case Named(_) => 9
    case ArrayOf(e) => 1 + TypeWidth(e)
    case TupleOf(es) => 5 + TypesWidth(es)
    case MapOf(k, v) => 1 + TypeWidth(k) + TypeWidth(v)
    case LambdaOf(ps, r) => 5 + TypesWidth(ps) + TypeWidth(r)
  }

  function TypesWidth(ts: seq<TypeNode>): nat {
    if ts == [] then 0 else TypeWidth(ts[0]) + TypesWidth(ts[1..])
  }

  function LitWidth(l: Lit): nat {
    match l
    case IntLit(_) => 9
    case FloatLit(_) => 9
    case StrLit(_) => 9
    case CharLit(_) => 2
    case BoolLit(_) => 2
    case NullLit => 1
    case RegexLit(_) => 9
    case EnumLit(_, _) => 17
    case FuncLit(_) => 9
  }

  function OpWidth(op: Op): nat {
    match op
    case Binary(_) => 1
    case Unary(_) => 1
    case MemberGet(_) => 9
    case IndexGet => 1
    case MakeArray(_) => 5
    case MakeTuple(_) => 5
    case MakeMap(_) => 5
    case Cast(t) => 1 + TypeWidth(t)
    case Alloc(_) => 5
    case MakeSimd => 1
    case CloneObject => 1
  }

  /** Encoded width of an instruction: its opcode byte and its operands. */
  function Width(i: Instr): (r: nat)
    ensures r > 0
  {
    match i
    case Push(l) => LitWidth(l)
    case Pop => 1
    case Dup => 1
    case Swap => 1
    case Load(_) => 9
    case Store(_) => 9
    case Do(op) => OpWidth(op)
    case Jmp(_) => 5
    case JmpIfFalse(_) => 5
    case JmpIfTrue(_) => 5
    case CallN(_) => 2
    case Ret => 1
    case Halt => 1
    case Unpack(_) => 2
    case MonitorEnter(_) => 5
    case MonitorExit => 1
    case HintBranch(_) => 2
  }

  function SizeExpr(e: Expr): nat
    decreases e, 1
  {
    match e
    case Literal(l) => LitWidth(l)
    case Ident(_) => 9
    case Apply(op, operands) => SizeExprs(operands) + OpWidth(op)
    case Logical(_, left, right) => SizeExpr(left) + 7 + SizeExpr(right)
    case Call(callee, args) => SizeExpr(callee) + SizeExprs(args) + 2
  }

  function SizeExprs(es: seq<Expr>): nat
    decreases es, 0
  {
    if es == [] then 0 else SizeExpr(es[0]) + SizeExprs(es[1..])
  }

  function SizeTarget(t: Target): nat {
    if t.Discard? then 1 else 9
  }

  /** Code that binds the destructured value on top of the stack. */
  function SizeBind(t: Target, addAssign: bool): nat {
    if addAssign && t.To? then 20 else SizeTarget(t)
  }

  function SizeBinds(ts: seq<Target>, addAssign: bool): nat {
    if ts == [] then 0 else SizeBind(ts[0], addAssign) + SizeBinds(ts[1..], addAssign)
  }

  function SizeHint(h: Hint): nat {
    if h.NoHint? then 0 else 2
  }

  function SizeAssign(ts: seq<Target>, addAssign: bool, value: Expr): nat {
    if addAssign && |ts| == 1 then
      if ts[0].Discard? then SizeExpr(value) + 1 else 9 + SizeExpr(value) + 10
    else if |ts| == 1 then SizeExpr(value) + SizeTarget(ts[0])
    else SizeExpr(value) + 2 + SizeBinds(ts, addAssign)
  }

  function SizeStmt(s: Stmt): nat
    decreases s, 1
  {
    match s
    case Assign(ts, addAssign, value) => SizeAssign(ts, addAssign, value)
    case ExprStmt(e) => SizeExpr(e) + 1
    case Return(e) => SizeExpr(e) + 1
    case Break => 5
    case Block(body) => SizeBlock(body)
    case If(chain) => SizeChain(chain)
    case Loop(cond, body) => SizeCond(cond) + SizeBlock(body) + 5
    case Match(scrutinee, cases) => SizeExpr(scrutinee) + SizeCases(cases) + 1
    case Monitor(body, _, handler) => 5 + SizeBlock(body) + 6 + 9 + SizeBlock(handler)
  }

  function SizeCond(cond: Option<Expr>): nat {
    match cond
    case None => 0
    case Some(e) => SizeExpr(e) + 5
  }

  function SizeBlock(ss: seq<Stmt>): nat
    decreases ss, 0
  {
    if ss == [] then 0 else SizeStmt(ss[0]) + SizeBlock(ss[1..])
  }

  function SizeChain(ch: Chain): nat
    decreases ch, 0
  {
    match ch
    case Else(els) => SizeBlock(els)
    case Elif(cond, hint, body, rest) => SizeExpr(cond) + SizeHint(hint) + 5 + SizeBlock(body) + 5 + SizeChain(rest)
  }

  function SizeCases(cases: seq<Case>): nat
    decreases cases, 0
  {
    if cases == [] then 0 else 24 + SizeBlock(cases[0].body) + 5 + SizeCases(cases[1..])
  }

  // ---- layout ----

  /** Jump targets may point at the end of the code, not past it. */
  predicate TargetOk(i: Instr, size: nat) {
    match i
    case Jmp(t) => t <= size
    case JmpIfFalse(t) => t <= size
    case JmpIfTrue(t) => t <= size
    case MonitorEnter(t) => t <= size
    case _ => true
  }

  predicate InstrAt(c: Code, at: nat, i: Instr) {
    c.fetch(at) == Instruction(i, at + Width(i)) && TargetOk(i, c.size)
  }

  predicate ExprAt(c: Code, at: nat, e: Expr)
    decreases e, 1
  {
    match e
    case Literal(l) => InstrAt(c, at, Push(l))
    case Ident(name) => InstrAt(c, at, Load(name))
    case Apply(op, operands) => ExprsAt(c, at, operands) && InstrAt(c, at + SizeExprs(operands), Do(op))
    case Logical(isAnd, left, right) =>
      && ExprAt(c, at, left)
      && ShortcutAt(c, at + SizeExpr(left), isAnd, at + SizeExpr(e))
      && ExprAt(c, at + SizeExpr(left) + 7, right)
    case Call(callee, args) =>
      && ExprAt(c, at, callee)
      && ExprsAt(c, at + SizeExpr(callee), args)
      && InstrAt(c, at + SizeExpr(callee) + SizeExprs(args), CallN(|args|))
  }

  /** Between the operands of a short-circuit form: leave for `end` with the left value
      if that decides, else drop it. */
  predicate ShortcutAt(c: Code, mid: nat, isAnd: bool, end: nat) {
    && InstrAt(c, mid, Dup)
    && InstrAt(c, mid + 1, ShortcutJump(isAnd, end))
    && InstrAt(c, mid + 6, Pop)
  }

  function ShortcutJump(isAnd: bool, end: nat): Instr {
    if isAnd then JmpIfFalse(end) else JmpIfTrue(end)
  }

  predicate ExprsAt(c: Code, at: nat, es: seq<Expr>)
    decreases es, 0
  {
    es == [] || (ExprAt(c, at, es[0]) && ExprsAt(c, at + SizeExpr(es[0]), es[1..]))
  }

  predicate TargetAt(c: Code, at: nat, t: Target) {
    InstrAt(c, at, match t case Discard => Pop case To(name) => Store(name))
  }

  predicate BindAt(c: Code, at: nat, t: Target, addAssign: bool) {
    if addAssign && t.To? then
      && InstrAt(c, at, Load(t.name))
      && InstrAt(c, at + 9, Swap)
      && InstrAt(c, at + 10, Do(Binary(Add)))
      && InstrAt(c, at + 11, Store(t.name))
    else TargetAt(c, at, t)
  }

  predicate BindsAt(c: Code, at: nat, ts: seq<Target>, addAssign: bool)
    decreases |ts|
  {
    ts == [] || (BindAt(c, at, ts[0], addAssign) && BindsAt(c, at + SizeBind(ts[0], addAssign), ts[1..], addAssign))
  }

  predicate AssignAt(c: Code, at: nat, ts: seq<Target>, addAssign: bool, value: Expr) {
    if addAssign && |ts| == 1 then
      if ts[0].Discard? then ExprAt(c, at, value) && InstrAt(c, at + SizeExpr(value), Pop)
      else
        && InstrAt(c, at, Load(ts[0].name))
        && ExprAt(c, at + 9, value)
        && InstrAt(c, at + 9 + SizeExpr(value), Do(Binary(Add)))
        && InstrAt(c, at + 10 + SizeExpr(value), Store(ts[0].name))
    else if |ts| == 1 then
      ExprAt(c, at, value) && TargetAt(c, at + SizeExpr(value), ts[0])
    else
      && ExprAt(c, at, value)
      && InstrAt(c, at + SizeExpr(value), Unpack(|ts|))
      && BindsAt(c, at + SizeExpr(value) + 2, ts, addAssign)
  }

  predicate HintAt(c: Code, at: nat, h: Hint) {
    match h
    case NoHint => true
    case Likely => InstrAt(c, at, HintBranch(false))
    case Unlikely => InstrAt(c, at, HintBranch(true))
  }

  predicate CondAt(c: Code, at: nat, cond: Option<Expr>, end: nat) {
    cond.Some? ==> ExprAt(c, at, cond.value) && InstrAt(c, at + SizeExpr(cond.value), JmpIfFalse(end))
  }

  /** The code of `s` stands at `at`; a `break` of the enclosing loop goes to `brk`. */
  predicate StmtAt(c: Code, at: nat, s: Stmt, brk: nat)
    decreases s, 1
  {
    match s
    case Assign(ts, addAssign, value) => AssignAt(c, at, ts, addAssign, value)
    case ExprStmt(e) => ExprAt(c, at, e) && InstrAt(c, at + SizeExpr(e), Pop)
    case Return(e) => ExprAt(c, at, e) && InstrAt(c, at + SizeExpr(e), Ret)
    case Break => InstrAt(c, at, Jmp(brk))
    case Block(body) => BlockAt(c, at, body, brk)
    case If(chain) => ChainAt(c, at, chain, at + SizeChain(chain), brk)
    case Loop(cond, body) =>
      var end := at + SizeStmt(s);
      && CondAt(c, at, cond, end)
      && BlockAt(c, at + SizeCond(cond), body, end)
      && InstrAt(c, at + SizeCond(cond) + SizeBlock(body), Jmp(at))
    case Match(scrutinee, cases) =>
      && ExprAt(c, at, scrutinee)
      && CasesAt(c, at + SizeExpr(scrutinee), cases, CasesEnd(s, at), brk)
      && InstrAt(c, CasesEnd(s, at), Pop)
    case Monitor(body, trap, handler) =>
      && RegionAt(c, at, trap, BodyEnd(s, at), at + SizeStmt(s))
      && BlockAt(c, at + 5, body, brk)
      && BlockAt(c, BodyEnd(s, at) + 15, handler, brk)
  }

  /** The instructions around the two blocks of a `monitor`. */
  predicate RegionAt(c: Code, at: nat, trap: string, exit: nat, end: nat) {
    && InstrAt(c, at, MonitorEnter(exit + 6))
    && InstrAt(c, exit, MonitorExit)
    && InstrAt(c, exit + 1, Jmp(end))
    && InstrAt(c, exit + 6, Store(trap))
  }

  /** Where the protected block of a `monitor` ends. */
  function BodyEnd(s: Stmt, at: nat): nat
    requires s.Monitor?
  {
    at + 5 + SizeBlock(s.body)
  }

  /** Where the arms of a `match` end. */
  function CasesEnd(s: Stmt, at: nat): nat
    requires s.Match?
  {
    at + SizeExpr(s.scrutinee) + SizeCases(s.cases)
  }

  predicate BlockAt(c: Code, at: nat, ss: seq<Stmt>, brk: nat)
    decreases ss, 0
  {
    ss == [] || (StmtAt(c, at, ss[0], brk) && BlockAt(c, at + SizeStmt(ss[0]), ss[1..], brk))
  }

  /** Where the body of the first arm starts. */
  function ArmStart(ch: Chain, at: nat): nat
    requires ch.Elif?
  {
    at + SizeExpr(ch.cond) + SizeHint(ch.hint) + 5
  }

  function NextArm(ch: Chain, at: nat): nat
    requires ch.Elif?
  {
    ArmStart(ch, at) + SizeBlock(ch.body) + 5
  }

  /** An `if` chain whose arms all leave for `end`. */
  predicate ChainAt(c: Code, at: nat, ch: Chain, end: nat, brk: nat)
    decreases ch, 0
  {
    match ch
    case Else(els) => BlockAt(c, at, els, brk)
    case Elif(cond, hint, body, rest) =>
      && ExprAt(c, at, cond)
      && TestAt(c, at + SizeExpr(cond), hint, NextArm(ch, at))
      && BlockAt(c, ArmStart(ch, at), body, brk)
      && InstrAt(c, ArmStart(ch, at) + SizeBlock(body), Jmp(end))
      && ChainAt(c, NextArm(ch, at), rest, end, brk)
  }

  /** The hint and conditional jump behind the condition of an arm. */
  predicate TestAt(c: Code, at: nat, hint: Hint, next: nat) {
    HintAt(c, at, hint) && InstrAt(c, at + SizeHint(hint), JmpIfFalse(next))
  }

  predicate CasesAt(c: Code, at: nat, cases: seq<Case>, end: nat, brk: nat)
    decreases cases, 0
  {
    cases == [] ||
    var next := at + 24 + SizeBlock(cases[0].body) + 5;
    && CaseTestAt(c, at, cases[0], next)
    && BlockAt(c, at + 24, cases[0].body, brk)
    && InstrAt(c, next - 5, Jmp(end))
    && CasesAt(c, next, cases[1..], end, brk)
  }

  /** The comparison in front of an arm of a match. */
  predicate CaseTestAt(c: Code, at: nat, arm: Case, next: nat) {
    && InstrAt(c, at, Dup)
    && InstrAt(c, at + 1, Push(EnumLit(arm.enumName, arm.member)))
    && InstrAt(c, at + 18, Do(Binary(Eq)))
    && InstrAt(c, at + 19, JmpIfFalse(next))
  }

  /** The parameter prologue: the last argument is on top, so it is stored first. */
  predicate PrologueAt(c: Code, at: nat, params: seq<string>)
    decreases |params|
  {
    params == [] ||
    (InstrAt(c, at, Store(params[|params| - 1])) && PrologueAt(c, at + 9, params[..|params| - 1]))
  }

  /** A function body: prologue, statements, and the implicit `return null`, which is
      also where a `break` outside any loop goes. */
  predicate FunctionAt(c: Code, f: Function) {
    var start := 9 * |f.params|;
    var end := start + SizeBlock(f.body);
    && PrologueAt(c, 0, f.params)
    && BlockAt(c, start, f.body, end)
    && InstrAt(c, end, Push(NullLit))
    && InstrAt(c, end + 1, Ret)
  }

  /** A package's top-level statements, ended by `Halt`. */
  predicate TopAt(c: Code, body: seq<Stmt>) {
    BlockAt(c, 0, body, SizeBlock(body)) && InstrAt(c, SizeBlock(body), Instr.Halt)
  }
}
