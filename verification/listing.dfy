/** The instruction listing the generator produces for a construct that starts at byte
    offset `at`, every jump carrying its final target, and the proof that code listed
    this way is laid out as `Layout` says. */
module Listing {
  import opened Syntax
  import opened Machine
  import opened Layout

  function ExprCode(e: Expr, at: nat): seq<Instr>
    decreases e, 1
  {
    match e
    case Literal(l) => [Push(l)]
    case Ident(name) => [Load(name)]
    case Apply(op, operands) => ExprsCode(operands, at) + [Do(op)]
    case Logical(isAnd, left, right) =>
      ExprCode(left, at) + ([Dup, ShortcutJump(isAnd, at + SizeExpr(e)), Pop]
        + ExprCode(right, at + SizeExpr(left) + 7))
    case Call(callee, args) =>
      ExprCode(callee, at) + (ExprsCode(args, at + SizeExpr(callee)) + [CallN(|args|)])
  }

  function ExprsCode(es: seq<Expr>, at: nat): seq<Instr>
    decreases es, 0
  {
    if es == [] then [] else ExprCode(es[0], at) + ExprsCode(es[1..], at + SizeExpr(es[0]))
  }

  function TargetCode(t: Target): Instr {
    match t case Discard => Pop case To(name) => Store(name)
  }

  function BindCode(t: Target, addAssign: bool): seq<Instr> {
    if addAssign && t.To? then [Load(t.name), Swap, Do(Binary(Add)), Store(t.name)] else [TargetCode(t)]
  }

  function BindsCode(ts: seq<Target>, addAssign: bool): seq<Instr> {
    if ts == [] then [] else BindCode(ts[0], addAssign) + BindsCode(ts[1..], addAssign)
  }

  function AssignCode(ts: seq<Target>, addAssign: bool, value: Expr, at: nat): seq<Instr> {
    if addAssign && |ts| == 1 && ts[0].To? then
      [Load(ts[0].name)] + (ExprCode(value, at + 9) + [Do(Binary(Add)), Store(ts[0].name)])
    else if |ts| == 1 then ExprCode(value, at) + [TargetCode(ts[0])]
    else ExprCode(value, at) + ([Instr.Unpack(|ts|)] + BindsCode(ts, addAssign))
  }

  function HintCode(h: Hint): seq<Instr> {
    match h
    case NoHint => []
    case Likely => [HintBranch(false)]
    case Unlikely => [HintBranch(true)]
  }

  function CondCode(cond: Option<Expr>, at: nat, end: nat): seq<Instr> {
    match cond
    case None => []
    case Some(e) => ExprCode(e, at) + [JmpIfFalse(end)]
  }

  /** A `break` of the enclosing loop goes to `brk`. */
  function StmtCode(s: Stmt, at: nat, brk: nat): seq<Instr>
    decreases s, 1
  {
    match s
    case Assign(ts, addAssign, value) => AssignCode(ts, addAssign, value, at)
    case ExprStmt(e) => ExprCode(e, at) + [Pop]
    case Return(e) => ExprCode(e, at) + [Ret]
    case Break => [Jmp(brk)]
    case Block(body) => BlockCode(body, at, brk)
    case If(chain) => ChainCode(chain, at, at + SizeChain(chain), brk)
    case Loop(cond, body) =>
      var end := at + SizeStmt(s);
      CondCode(cond, at, end) + (BlockCode(body, at + SizeCond(cond), end) + [Jmp(at)])
    case Match(scrutinee, cases) =>
      ExprCode(scrutinee, at) + (CasesCode(cases, at + SizeExpr(scrutinee), CasesEnd(s, at), brk) + [Pop])
    case Monitor(body, trap, handler) =>
      var exit := BodyEnd(s, at);
      [MonitorEnter(exit + 6)] + (BlockCode(body, at + 5, brk)
      + ([MonitorExit, Jmp(at + SizeStmt(s)), Store(trap)] + BlockCode(handler, exit + 15, brk)))
  }

  function BlockCode(ss: seq<Stmt>, at: nat, brk: nat): seq<Instr>
    decreases ss, 0
  {
    if ss == [] then [] else StmtCode(ss[0], at, brk) + BlockCode(ss[1..], at + SizeStmt(ss[0]), brk)
  }

  function ChainCode(ch: Chain, at: nat, end: nat, brk: nat): seq<Instr>
    decreases ch, 0
  {
    match ch
    case Else(els) => BlockCode(els, at, brk)
    case Elif(cond, hint, body, rest) =>
      ExprCode(cond, at) + (TestCode(hint, NextArm(ch, at)) + (BlockCode(body, ArmStart(ch, at), brk)
      + ([Jmp(end)] + ChainCode(rest, NextArm(ch, at), end, brk))))
  }

  function TestCode(hint: Hint, next: nat): seq<Instr> {
    HintCode(hint) + [JmpIfFalse(next)]
  }

  function CasesCode(cases: seq<Case>, at: nat, end: nat, brk: nat): seq<Instr>
    decreases cases, 0
  {
    if cases == [] then []
    else
      var next := at + 24 + SizeBlock(cases[0].body) + 5;
      CaseTestCode(cases[0], next) + (BlockCode(cases[0].body, at + 24, brk)
      + ([Jmp(end)] + CasesCode(cases[1..], next, end, brk)))
  }

  function CaseTestCode(arm: Case, next: nat): seq<Instr> {
    [Dup, Push(EnumLit(arm.enumName, arm.member)), Do(Binary(Eq)), JmpIfFalse(next)]
  }

  /** The last argument is on top of the stack, so it is stored first. */
  function PrologueCode(params: seq<string>): seq<Instr> {
    if params == [] then [] else [Store(params[|params| - 1])] + PrologueCode(params[..|params| - 1])
  }

  function FunctionCode(f: Function): seq<Instr> {
    var start := 9 * |f.params|;
    PrologueCode(f.params) + (BlockCode(f.body, start, start + SizeBlock(f.body)) + [Push(NullLit), Ret])
  }

  function TopCode(body: seq<Stmt>): seq<Instr> {
    BlockCode(body, 0, SizeBlock(body)) + [Instr.Halt]
  }

  // ---- listings grow at the end ----

  lemma {:induction false} ExprsCodeSnoc(a: seq<Expr>, e: Expr, at: nat)
    ensures SizeExprs(a + [e]) == SizeExprs(a) + SizeExpr(e)
    ensures ExprsCode(a + [e], at) == ExprsCode(a, at) + ExprCode(e, at + SizeExprs(a))
  {
    hide ExprCode, SizeExpr;
    if a == [] {
      assert a + [e] == [e];
    } else {
      ExprsCodeSnoc(a[1..], e, at + SizeExpr(a[0]));
      assert (a + [e])[1..] == a[1..] + [e];
    }
  }

  lemma {:induction false} BindsCodeSnoc(a: seq<Target>, t: Target, addAssign: bool)
    ensures SizeBinds(a + [t], addAssign) == SizeBinds(a, addAssign) + SizeBind(t, addAssign)
    ensures BindsCode(a + [t], addAssign) == BindsCode(a, addAssign) + BindCode(t, addAssign)
  {
    hide BindCode, SizeBind;
    if a == [] {
      assert a + [t] == [t];
    } else {
      BindsCodeSnoc(a[1..], t, addAssign);
      assert (a + [t])[1..] == a[1..] + [t];
    }
  }

  lemma {:induction false} SizeBlockSnoc(a: seq<Stmt>, s: Stmt)
    ensures SizeBlock(a + [s]) == SizeBlock(a) + SizeStmt(s)
  {
    if a == [] {
      assert a + [s] == [s];
    } else {
      SizeBlockSnoc(a[1..], s);
      assert (a + [s])[1..] == a[1..] + [s];
    }
  }

  lemma {:induction false} BlockCodeSnoc(a: seq<Stmt>, s: Stmt, at: nat, brk: nat)
    ensures BlockCode(a + [s], at, brk) == BlockCode(a, at, brk) + StmtCode(s, at + SizeBlock(a), brk)
  {
    hide StmtCode, SizeStmt;
    if a == [] {
      assert a + [s] == [s];
    } else {
      var next := at + SizeStmt(a[0]);
      BlockCodeSnoc(a[1..], s, next, brk);
      assert (a + [s])[1..] == a[1..] + [s];
      Regroup(StmtCode(a[0], at, brk), BlockCode(a[1..], next, brk), StmtCode(s, at + SizeBlock(a), brk));
    }
  }

  /** The code of one arm of a match that is followed by others. */
  function CaseCode(arm: Case, at: nat, end: nat, brk: nat): seq<Instr> {
    CaseTestCode(arm, at + 24 + SizeBlock(arm.body) + 5) + (BlockCode(arm.body, at + 24, brk) + [Jmp(end)])
  }

  lemma {:induction false} SizeCasesSnoc(a: seq<Case>, arm: Case)
    ensures SizeCases(a + [arm]) == SizeCases(a) + 24 + SizeBlock(arm.body) + 5
  {
    if a == [] {
      assert a + [arm] == [arm];
    } else {
      SizeCasesSnoc(a[1..], arm);
      assert (a + [arm])[1..] == a[1..] + [arm];
    }
  }

  lemma {:induction false} CasesCodeSnoc(a: seq<Case>, arm: Case, at: nat, end: nat, brk: nat)
    ensures CasesCode(a + [arm], at, end, brk)
      == CasesCode(a, at, end, brk) + CaseCode(arm, at + SizeCases(a), end, brk)
  {
    hide CaseCode, BlockCode, SizeBlock;
    if a == [] {
      assert a + [arm] == [arm];
      CaseCodeOf([arm], at, end, brk);
    } else {
      var next := at + 24 + SizeBlock(a[0].body) + 5;
      CasesCodeSnoc(a[1..], arm, next, end, brk);
      assert (a + [arm])[1..] == a[1..] + [arm];
      CaseCodeOf(a, at, end, brk);
      CaseCodeOf(a + [arm], at, end, brk);
      Regroup(CaseCode(a[0], at, end, brk), CasesCode(a[1..], next, end, brk),
        CaseCode(arm, at + SizeCases(a), end, brk));
    }
  }

  lemma CaseCodeOf(cases: seq<Case>, at: nat, end: nat, brk: nat)
    requires cases != []
    ensures CasesCode(cases, at, end, brk)
         == CaseCode(cases[0], at, end, brk) + CasesCode(cases[1..], at + 24 + SizeBlock(cases[0].body) + 5, end, brk)
  {
    var test, code := CaseTestCode(cases[0], at + 24 + SizeBlock(cases[0].body) + 5),
      BlockCode(cases[0].body, at + 24, brk);
    var rest := CasesCode(cases[1..], at + 24 + SizeBlock(cases[0].body) + 5, end, brk);
    Regroup(test, code + [Jmp(end)], rest);
    Regroup(code, [Jmp(end)], rest);
  }

  // ---- a listing is a layout ----

  /** The instructions `list` stand one after another from offset `at` on. */
  predicate ListedAt(c: Code, at: nat, list: seq<Instr>)
    decreases |list|
  {
    list == [] || (InstrAt(c, at, list[0]) && ListedAt(c, at + Width(list[0]), list[1..]))
  }

  lemma Peel(c: Code, at: nat, i: Instr, rest: seq<Instr>)
    requires ListedAt(c, at, [i] + rest)
    ensures InstrAt(c, at, i) && ListedAt(c, at + Width(i), rest)
  {
    assert ([i] + rest)[1..] == rest;
  }

  lemma Prepend(c: Code, at: nat, i: Instr, rest: seq<Instr>)
    requires InstrAt(c, at, i) && ListedAt(c, at + Width(i), rest)
    ensures ListedAt(c, at, [i] + rest)
  {
    assert ([i] + rest)[1..] == rest;
  }

  lemma Regroup<T>(a: seq<T>, b: seq<T>, c: seq<T>)
    ensures (a + b) + c == a + (b + c)
  {
  }

  /** Each of these reads a construct off the front of a listing. */
  lemma {:induction false} ExprListed(c: Code, at: nat, e: Expr, rest: seq<Instr>)
    requires ListedAt(c, at, ExprCode(e, at) + rest)
    ensures ExprAt(c, at, e) && ListedAt(c, at + SizeExpr(e), rest)
    decreases e, 1
  {
    hide ListedAt, ExprsCode, ExprsAt, InstrAt, SizeExprs;
    match e
    case Literal(l) => Peel(c, at, Push(l), rest);
    case Ident(name) => Peel(c, at, Load(name), rest);
    case Apply(op, operands) =>
      Regroup(ExprsCode(operands, at), [Do(op)], rest);
      ExprsListed(c, at, operands, [Do(op)] + rest);
      Peel(c, at + SizeExprs(operands), Do(op), rest);
    case Logical(isAnd, left, right) => LogicalListed(c, at, e, rest);
    case Call(callee, args) => CallListed(c, at, e, rest);
  }

  lemma {:induction false} LogicalListed(c: Code, at: nat, e: Expr, rest: seq<Instr>)
    requires e.Logical? && ListedAt(c, at, ExprCode(e, at) + rest)
    ensures ExprAt(c, at, e) && ListedAt(c, at + SizeExpr(e), rest)
    decreases e, 0
  {
    hide ListedAt, ExprAt, ShortcutAt, InstrAt;
    var right := ExprCode(e.right, at + SizeExpr(e.left) + 7);
    LogicalHead(c, at, e, at + SizeExpr(e.left), at + SizeExpr(e), right, rest);
    ExprListed(c, at + SizeExpr(e.left) + 7, e.right, rest);
    LogicalWhole(c, at, e);
    Moved(c, at + SizeExpr(e.left) + 7 + SizeExpr(e.right), at + SizeExpr(e), rest);
  }

  lemma {:induction false} LogicalHead(c: Code, at: nat, e: Expr, mid: nat, end: nat, right: seq<Instr>,
      rest: seq<Instr>)
    requires e.Logical? && mid == at + SizeExpr(e.left)
    requires ListedAt(c, at, (ExprCode(e.left, at) + ([Dup, ShortcutJump(e.isAnd, end), Pop] + right)) + rest)
    ensures ExprAt(c, at, e.left) && ShortcutAt(c, mid, e.isAnd, end) && ListedAt(c, mid + 7, right + rest)
    decreases e.left, 2
  {
    var test := [Dup, ShortcutJump(e.isAnd, end), Pop];
    Regroup(ExprCode(e.left, at), test + right, rest);
    Regroup(test, right, rest);
    ExprListed(c, at, e.left, test + (right + rest));
    ShortcutListed(c, mid, e.isAnd, end, right + rest);
  }

  lemma LogicalWhole(c: Code, at: nat, e: Expr)
    requires e.Logical? && ExprAt(c, at, e.left) && ShortcutAt(c, at + SizeExpr(e.left), e.isAnd, at + SizeExpr(e))
    requires ExprAt(c, at + SizeExpr(e.left) + 7, e.right)
    ensures ExprAt(c, at, e)
  {
  }

  lemma Moved(c: Code, p: nat, q: nat, list: seq<Instr>)
    requires p == q && ListedAt(c, p, list)
    ensures ListedAt(c, q, list)
  {
  }

  lemma ShortcutListed(c: Code, mid: nat, isAnd: bool, end: nat, rest: seq<Instr>)
    requires ListedAt(c, mid, [Dup, ShortcutJump(isAnd, end), Pop] + rest)
    ensures ShortcutAt(c, mid, isAnd, end) && ListedAt(c, mid + 7, rest)
  {
    var jump := ShortcutJump(isAnd, end);
    assert [Dup, jump, Pop] + rest == [Dup] + ([jump] + ([Pop] + rest));
    Peel(c, mid, Dup, [jump] + ([Pop] + rest));
    Peel(c, mid + 1, jump, [Pop] + rest);
    Peel(c, mid + 6, Pop, rest);
  }

  lemma {:induction false} CallListed(c: Code, at: nat, e: Expr, rest: seq<Instr>)
    requires e.Call? && ListedAt(c, at, ExprCode(e, at) + rest)
    ensures ExprAt(c, at, e) && ListedAt(c, at + SizeExpr(e), rest)
    decreases e, 0
  {
    hide ListedAt, ExprsCode, ExprsAt, InstrAt, SizeExprs;
    var p, call := at + SizeExpr(e.callee), CallN(|e.args|);
    Regroup(ExprCode(e.callee, at), ExprsCode(e.args, p) + [call], rest);
    Regroup(ExprsCode(e.args, p), [call], rest);
    ExprListed(c, at, e.callee, ExprsCode(e.args, p) + ([call] + rest));
    ExprsListed(c, p, e.args, [call] + rest);
    Peel(c, p + SizeExprs(e.args), call, rest);
  }

  lemma {:induction false} ExprsListed(c: Code, at: nat, es: seq<Expr>, rest: seq<Instr>)
    requires ListedAt(c, at, ExprsCode(es, at) + rest)
    ensures ExprsAt(c, at, es) && ListedAt(c, at + SizeExprs(es), rest)
    decreases es, 0
  {
    hide ListedAt, ExprCode, ExprAt, SizeExpr;
    if es == [] {
      assert [] + rest == rest;
    } else {
      var tail := ExprsCode(es[1..], at + SizeExpr(es[0]));
      Regroup(ExprCode(es[0], at), tail, rest);
      ExprListed(c, at, es[0], tail + rest);
      ExprsListed(c, at + SizeExpr(es[0]), es[1..], rest);
    }
  }

  lemma BindListed(c: Code, at: nat, t: Target, addAssign: bool, rest: seq<Instr>)
    requires ListedAt(c, at, BindCode(t, addAssign) + rest)
    ensures BindAt(c, at, t, addAssign) && ListedAt(c, at + SizeBind(t, addAssign), rest)
  {
    if addAssign && t.To? {
      var load, store := Load(t.name), Store(t.name);
      assert BindCode(t, addAssign) + rest == [load] + ([Swap] + ([Do(Binary(Add))] + ([store] + rest)));
      Peel(c, at, load, [Swap] + ([Do(Binary(Add))] + ([store] + rest)));
      Peel(c, at + 9, Swap, [Do(Binary(Add))] + ([store] + rest));
      Peel(c, at + 10, Do(Binary(Add)), [store] + rest);
      Peel(c, at + 11, store, rest);
    } else {
      Peel(c, at, TargetCode(t), rest);
    }
  }

  lemma {:induction false} BindsListed(c: Code, at: nat, ts: seq<Target>, addAssign: bool, rest: seq<Instr>)
    requires ListedAt(c, at, BindsCode(ts, addAssign) + rest)
    ensures BindsAt(c, at, ts, addAssign) && ListedAt(c, at + SizeBinds(ts, addAssign), rest)
    decreases |ts|
  {
    hide ListedAt, BindCode, BindAt, SizeBind;
    if ts == [] {
      assert [] + rest == rest;
    } else {
      var tail := BindsCode(ts[1..], addAssign);
      Regroup(BindCode(ts[0], addAssign), tail, rest);
      BindListed(c, at, ts[0], addAssign, tail + rest);
      BindsListed(c, at + SizeBind(ts[0], addAssign), ts[1..], addAssign, rest);
    }
  }

  lemma AssignListed(c: Code, at: nat, ts: seq<Target>, addAssign: bool, value: Expr, rest: seq<Instr>)
    requires ListedAt(c, at, AssignCode(ts, addAssign, value, at) + rest)
    ensures AssignAt(c, at, ts, addAssign, value) && ListedAt(c, at + SizeAssign(ts, addAssign, value), rest)
  {
    hide ListedAt, ExprCode, ExprAt, BindsCode, BindsAt, InstrAt, SizeExpr, SizeBinds;
    if addAssign && |ts| == 1 && ts[0].To? {
      AddAssignListed(c, at, ts[0].name, value, rest);
    } else if |ts| == 1 {
      ValueListed(c, at, value, TargetCode(ts[0]), rest);
    } else {
      UnpackListed(c, at, ts, addAssign, value, rest);
    }
  }

  lemma UnpackListed(c: Code, at: nat, ts: seq<Target>, addAssign: bool, value: Expr, rest: seq<Instr>)
    requires ListedAt(c, at, (ExprCode(value, at) + ([Instr.Unpack(|ts|)] + BindsCode(ts, addAssign))) + rest)
    ensures ExprAt(c, at, value) && InstrAt(c, at + SizeExpr(value), Unpack(|ts|))
    ensures BindsAt(c, at + SizeExpr(value) + 2, ts, addAssign)
    ensures ListedAt(c, at + SizeExpr(value) + 2 + SizeBinds(ts, addAssign), rest)
  {
    hide ListedAt, ExprCode, ExprAt, BindsCode, BindsAt, InstrAt, SizeExpr, SizeBinds;
    var unpack, tail := Instr.Unpack(|ts|), BindsCode(ts, addAssign);
    Regroup(ExprCode(value, at), [unpack] + tail, rest);
    Regroup([unpack], tail, rest);
    ExprListed(c, at, value, [unpack] + (tail + rest));
    Peel(c, at + SizeExpr(value), unpack, tail + rest);
    BindsListed(c, at + SizeExpr(value) + 2, ts, addAssign, rest);
  }

  lemma AddAssignListed(c: Code, at: nat, name: string, value: Expr, rest: seq<Instr>)
    requires ListedAt(c, at, ([Load(name)] + (ExprCode(value, at + 9) + [Do(Binary(Add)), Store(name)])) + rest)
    ensures InstrAt(c, at, Load(name)) && ExprAt(c, at + 9, value)
    ensures InstrAt(c, at + 9 + SizeExpr(value), Do(Binary(Add))) && InstrAt(c, at + 10 + SizeExpr(value), Store(name))
    ensures ListedAt(c, at + 19 + SizeExpr(value), rest)
  {
    hide ListedAt, ExprCode, ExprAt, InstrAt, SizeExpr;
    var code, add, store, p := ExprCode(value, at + 9), Do(Binary(Add)), Store(name), at + 9 + SizeExpr(value);
    assert [add, store] + rest == [add] + ([store] + rest);
    Regroup([Load(name)], code + [add, store], rest);
    Regroup(code, [add, store], rest);
    Peel(c, at, Load(name), code + ([add] + ([store] + rest)));
    ExprListed(c, at + 9, value, [add] + ([store] + rest));
    Peel(c, p, add, [store] + rest);
    Peel(c, p + 1, store, rest);
  }

  lemma CondListed(c: Code, at: nat, cond: Option<Expr>, end: nat, rest: seq<Instr>)
    requires ListedAt(c, at, CondCode(cond, at, end) + rest)
    ensures CondAt(c, at, cond, end) && ListedAt(c, at + SizeCond(cond), rest)
  {
    match cond
    case None => assert [] + rest == rest;
    case Some(e) =>
      Regroup(ExprCode(e, at), [JmpIfFalse(end)], rest);
      ExprListed(c, at, e, [JmpIfFalse(end)] + rest);
      Peel(c, at + SizeExpr(e), JmpIfFalse(end), rest);
  }

  lemma TestListed(c: Code, at: nat, hint: Hint, next: nat, rest: seq<Instr>)
    requires ListedAt(c, at, TestCode(hint, next) + rest)
    ensures TestAt(c, at, hint, next) && ListedAt(c, at + SizeHint(hint) + 5, rest)
  {
    Regroup(HintCode(hint), [JmpIfFalse(next)], rest);
    var tail := [JmpIfFalse(next)] + rest;
    if hint == NoHint {
      assert [] + tail == tail;
    } else {
      Peel(c, at, HintBranch(hint == Unlikely), tail);
    }
    Peel(c, at + SizeHint(hint), JmpIfFalse(next), rest);
  }

  lemma CaseTestListed(c: Code, at: nat, arm: Case, next: nat, rest: seq<Instr>)
    requires ListedAt(c, at, CaseTestCode(arm, next) + rest)
    ensures CaseTestAt(c, at, arm, next) && ListedAt(c, at + 24, rest)
  {
    var push, eq, jump := Push(EnumLit(arm.enumName, arm.member)), Do(Binary(Eq)), JmpIfFalse(next);
    assert CaseTestCode(arm, next) + rest == [Dup, push] + ([eq, jump] + rest);
    Peel2(c, at, Dup, push, [eq, jump] + rest);
    Peel2(c, at + 18, eq, jump, rest);
  }

  lemma Peel2(c: Code, at: nat, i: Instr, j: Instr, rest: seq<Instr>)
    requires ListedAt(c, at, [i, j] + rest)
    ensures InstrAt(c, at, i) && InstrAt(c, at + Width(i), j) && ListedAt(c, at + Width(i) + Width(j), rest)
  {
    assert [i, j] + rest == [i] + ([j] + rest);
    Peel(c, at, i, [j] + rest);
    Peel(c, at + Width(i), j, rest);
  }

  lemma {:induction false} StmtListed(c: Code, at: nat, s: Stmt, brk: nat, rest: seq<Instr>)
    requires ListedAt(c, at, StmtCode(s, at, brk) + rest)
    ensures StmtAt(c, at, s, brk) && ListedAt(c, at + SizeStmt(s), rest)
    decreases s, 1
  {
    hide ListedAt, StmtCode, StmtAt, SizeStmt;
    match s
    case Assign(_, _, _) => SimpleListed(c, at, s, brk, rest);
    case ExprStmt(_) => SimpleListed(c, at, s, brk, rest);
    case Return(_) => SimpleListed(c, at, s, brk, rest);
    case Break => SimpleListed(c, at, s, brk, rest);
    case Block(_) => NestedListed(c, at, s, brk, rest);
    case If(_) => NestedListed(c, at, s, brk, rest);
    case Loop(_, _) => LoopListed(c, at, s, brk, rest);
    case Match(_, _) => MatchListed(c, at, s, brk, rest);
    case Monitor(_, _, _) => MonitorListed(c, at, s, brk, rest);
  }

  lemma {:induction false} NestedListed(c: Code, at: nat, s: Stmt, brk: nat, rest: seq<Instr>)
    requires s.Block? || s.If?
    requires ListedAt(c, at, StmtCode(s, at, brk) + rest)
    ensures StmtAt(c, at, s, brk) && ListedAt(c, at + SizeStmt(s), rest)
    decreases s, 0
  {
    hide ListedAt, BlockCode, BlockAt, ChainCode, ChainAt, SizeBlock, SizeChain;
    match s
    case Block(body) => BlockListed(c, at, body, brk, rest);
    case If(chain) => ChainListed(c, at, chain, at + SizeChain(chain), brk, rest);
  }

  lemma SimpleListed(c: Code, at: nat, s: Stmt, brk: nat, rest: seq<Instr>)
    requires s.Assign? || s.ExprStmt? || s.Return? || s.Break?
    requires ListedAt(c, at, StmtCode(s, at, brk) + rest)
    ensures StmtAt(c, at, s, brk) && ListedAt(c, at + SizeStmt(s), rest)
  {
    hide ListedAt, AssignCode, AssignAt, ExprCode, ExprAt, SizeExpr, SizeAssign, InstrAt;
    match s
    case Assign(ts, addAssign, value) => AssignListed(c, at, ts, addAssign, value, rest);
    case ExprStmt(e) => ValueListed(c, at, e, Pop, rest);
    case Return(e) => ValueListed(c, at, e, Ret, rest);
    case Break => Peel(c, at, Jmp(brk), rest);
  }

  /** A value and one instruction that uses it up. */
  lemma ValueListed(c: Code, at: nat, e: Expr, i: Instr, rest: seq<Instr>)
    requires ListedAt(c, at, (ExprCode(e, at) + [i]) + rest)
    ensures ExprAt(c, at, e) && InstrAt(c, at + SizeExpr(e), i) && ListedAt(c, at + SizeExpr(e) + Width(i), rest)
  {
    Regroup(ExprCode(e, at), [i], rest);
    ExprListed(c, at, e, [i] + rest);
    Peel(c, at + SizeExpr(e), i, rest);
  }

  lemma {:induction false} LoopListed(c: Code, at: nat, s: Stmt, brk: nat, rest: seq<Instr>)
    requires s.Loop? && ListedAt(c, at, StmtCode(s, at, brk) + rest)
    ensures StmtAt(c, at, s, brk) && ListedAt(c, at + SizeStmt(s), rest)
    decreases s, 0
  {
    hide ListedAt, CondCode, CondAt, BlockCode, BlockAt, InstrAt, SizeCond, SizeBlock;
    var end, start := at + SizeStmt(s), at + SizeCond(s.cond);
    var body, back := BlockCode(s.body, start, end), Jmp(at);
    Regroup(CondCode(s.cond, at, end), body + [back], rest);
    Regroup(body, [back], rest);
    CondListed(c, at, s.cond, end, body + ([back] + rest));
    BlockListed(c, start, s.body, end, [back] + rest);
    Peel(c, start + SizeBlock(s.body), back, rest);
  }

  lemma {:induction false} MatchListed(c: Code, at: nat, s: Stmt, brk: nat, rest: seq<Instr>)
    requires s.Match? && ListedAt(c, at, StmtCode(s, at, brk) + rest)
    ensures StmtAt(c, at, s, brk) && ListedAt(c, at + SizeStmt(s), rest)
    decreases s, 0
  {
    hide ListedAt, StmtCode, StmtAt, SizeStmt, ExprAt, CasesAt, InstrAt;
    MatchParts(c, at, s, brk, rest);
    MatchWhole(c, at, s, brk, rest);
  }

  lemma {:induction false} MatchParts(c: Code, at: nat, s: Stmt, brk: nat, rest: seq<Instr>)
    requires s.Match? && ListedAt(c, at, StmtCode(s, at, brk) + rest)
    ensures ExprAt(c, at, s.scrutinee) && CasesAt(c, at + SizeExpr(s.scrutinee), s.cases, CasesEnd(s, at), brk)
    ensures InstrAt(c, CasesEnd(s, at), Pop) && ListedAt(c, CasesEnd(s, at) + 1, rest)
    decreases s.cases, 2
  {
    hide ListedAt, ExprCode, ExprAt, CasesCode, CasesAt, InstrAt, SizeExpr, SizeCases;
    var first := at + SizeExpr(s.scrutinee);
    Front(c, at, s.scrutinee, CasesCode(s.cases, first, CasesEnd(s, at), brk) + [Pop], rest);
    ArmsListed(c, first, s.cases, CasesEnd(s, at), brk, rest);
  }

  lemma MatchWhole(c: Code, at: nat, s: Stmt, brk: nat, rest: seq<Instr>)
    requires s.Match? && ExprAt(c, at, s.scrutinee)
    requires CasesAt(c, at + SizeExpr(s.scrutinee), s.cases, CasesEnd(s, at), brk)
    requires InstrAt(c, CasesEnd(s, at), Pop) && ListedAt(c, CasesEnd(s, at) + 1, rest)
    ensures StmtAt(c, at, s, brk) && ListedAt(c, at + SizeStmt(s), rest)
  {
    hide ListedAt, ExprAt, CasesAt, InstrAt, SizeExpr, SizeCases;
  }

  lemma Front(c: Code, at: nat, e: Expr, code: seq<Instr>, rest: seq<Instr>)
    requires ListedAt(c, at, (ExprCode(e, at) + code) + rest)
    ensures ExprAt(c, at, e) && ListedAt(c, at + SizeExpr(e), code + rest)
  {
    Regroup(ExprCode(e, at), code, rest);
    ExprListed(c, at, e, code + rest);
  }

  lemma {:induction false} ArmsListed(c: Code, first: nat, cases: seq<Case>, end: nat, brk: nat, rest: seq<Instr>)
    requires ListedAt(c, first, (CasesCode(cases, first, end, brk) + [Pop]) + rest) && end == first + SizeCases(cases)
    ensures CasesAt(c, first, cases, end, brk) && InstrAt(c, end, Pop) && ListedAt(c, end + 1, rest)
    decreases cases, 1
  {
    hide ListedAt, CasesCode, CasesAt, InstrAt, SizeCases;
    Regroup(CasesCode(cases, first, end, brk), [Pop], rest);
    CasesListed(c, first, cases, end, brk, [Pop] + rest);
    Peel(c, end, Pop, rest);
  }

  lemma {:induction false} MonitorListed(c: Code, at: nat, s: Stmt, brk: nat, rest: seq<Instr>)
    requires s.Monitor? && ListedAt(c, at, StmtCode(s, at, brk) + rest)
    ensures StmtAt(c, at, s, brk) && ListedAt(c, at + SizeStmt(s), rest)
    decreases s, 0
  {
    hide ListedAt, BlockCode, BlockAt, InstrAt, SizeBlock;
    var exit, end := BodyEnd(s, at), at + SizeStmt(s);
    var enter, leave := MonitorEnter(exit + 6), [MonitorExit, Jmp(end), Store(s.trap)];
    var body, handler := BlockCode(s.body, at + 5, brk), BlockCode(s.handler, exit + 15, brk);
    Regroup([enter], body + (leave + handler), rest);
    Regroup(body, leave + handler, rest);
    Regroup(leave, handler, rest);
    Peel(c, at, enter, body + (leave + (handler + rest)));
    BlockListed(c, at + 5, s.body, brk, leave + (handler + rest));
    LeaveListed(c, exit, end, s.trap, handler + rest);
    BlockListed(c, exit + 15, s.handler, brk, rest);
  }

  lemma LeaveListed(c: Code, exit: nat, end: nat, trap: string, rest: seq<Instr>)
    requires ListedAt(c, exit, [MonitorExit, Jmp(end), Store(trap)] + rest)
    ensures InstrAt(c, exit, MonitorExit) && InstrAt(c, exit + 1, Jmp(end)) && InstrAt(c, exit + 6, Store(trap))
    ensures ListedAt(c, exit + 15, rest)
  {
    assert [MonitorExit, Jmp(end), Store(trap)] + rest == [MonitorExit] + ([Jmp(end)] + ([Store(trap)] + rest));
    Peel(c, exit, MonitorExit, [Jmp(end)] + ([Store(trap)] + rest));
    Peel(c, exit + 1, Jmp(end), [Store(trap)] + rest);
    Peel(c, exit + 6, Store(trap), rest);
  }

  lemma {:induction false} BlockListed(c: Code, at: nat, ss: seq<Stmt>, brk: nat, rest: seq<Instr>)
    requires ListedAt(c, at, BlockCode(ss, at, brk) + rest)
    ensures BlockAt(c, at, ss, brk) && ListedAt(c, at + SizeBlock(ss), rest)
    decreases ss, 0
  {
    hide ListedAt, StmtCode, StmtAt, SizeStmt;
    if ss == [] {
      assert [] + rest == rest;
    } else {
      var tail := BlockCode(ss[1..], at + SizeStmt(ss[0]), brk);
      Regroup(StmtCode(ss[0], at, brk), tail, rest);
      StmtListed(c, at, ss[0], brk, tail + rest);
      BlockListed(c, at + SizeStmt(ss[0]), ss[1..], brk, rest);
    }
  }

  lemma {:induction false} ChainListed(c: Code, at: nat, ch: Chain, end: nat, brk: nat, rest: seq<Instr>)
    requires ListedAt(c, at, ChainCode(ch, at, end, brk) + rest)
    ensures ChainAt(c, at, ch, end, brk) && ListedAt(c, at + SizeChain(ch), rest)
    decreases ch, 1
  {
    hide ListedAt, BlockCode, BlockAt, ExprAt, TestAt, InstrAt, SizeExpr, SizeBlock;
    match ch
    case Else(els) => BlockListed(c, at, els, brk, rest);
    case Elif(_, _, _, _) =>
      ElifParts(c, at, ch, end, brk, rest);
      ElifWhole(c, at, ch, end, brk, rest);
  }

  lemma {:induction false} ElifParts(c: Code, at: nat, ch: Chain, end: nat, brk: nat, rest: seq<Instr>)
    requires ch.Elif? && ListedAt(c, at, ChainCode(ch, at, end, brk) + rest)
    ensures ExprAt(c, at, ch.cond) && TestAt(c, at + SizeExpr(ch.cond), ch.hint, NextArm(ch, at))
    ensures BlockAt(c, ArmStart(ch, at), ch.body, brk) && InstrAt(c, ArmStart(ch, at) + SizeBlock(ch.body), Jmp(end))
    ensures ChainAt(c, NextArm(ch, at), ch.rest, end, brk) && ListedAt(c, NextArm(ch, at) + SizeChain(ch.rest), rest)
    decreases ch, 0
  {
    hide ListedAt, ExprCode, ExprAt, TestCode, TestAt, BlockCode, BlockAt, ChainAt, InstrAt, SizeExpr, SizeBlock;
    var next, start := NextArm(ch, at), ArmStart(ch, at);
    var code := ChainCode(ch.rest, next, end, brk);
    var tail := [Jmp(end)] + code;
    Front(c, at, ch.cond, TestCode(ch.hint, next) + (BlockCode(ch.body, start, brk) + tail), rest);
    ArmListed(c, at + SizeExpr(ch.cond), ch.hint, next, start, ch.body, brk, tail, rest);
    OtherArmsListed(c, start + SizeBlock(ch.body), next, ch.rest, end, brk, rest);
  }

  lemma {:induction false} OtherArmsListed(c: Code, p: nat, next: nat, ch: Chain, end: nat, brk: nat, rest: seq<Instr>)
    requires ListedAt(c, p, ([Jmp(end)] + ChainCode(ch, next, end, brk)) + rest) && next == p + 5
    ensures InstrAt(c, p, Jmp(end)) && ChainAt(c, next, ch, end, brk) && ListedAt(c, next + SizeChain(ch), rest)
    decreases ch, 2
  {
    Regroup([Jmp(end)], ChainCode(ch, next, end, brk), rest);
    Peel(c, p, Jmp(end), ChainCode(ch, next, end, brk) + rest);
    ChainListed(c, next, ch, end, brk, rest);
  }

  lemma ElifWhole(c: Code, at: nat, ch: Chain, end: nat, brk: nat, rest: seq<Instr>)
    requires ch.Elif? && ExprAt(c, at, ch.cond) && TestAt(c, at + SizeExpr(ch.cond), ch.hint, NextArm(ch, at))
    requires BlockAt(c, ArmStart(ch, at), ch.body, brk) && InstrAt(c, ArmStart(ch, at) + SizeBlock(ch.body), Jmp(end))
    requires ChainAt(c, NextArm(ch, at), ch.rest, end, brk) && ListedAt(c, NextArm(ch, at) + SizeChain(ch.rest), rest)
    ensures ChainAt(c, at, ch, end, brk) && ListedAt(c, at + SizeChain(ch), rest)
  {
    hide ListedAt, ExprAt, TestAt, BlockAt, InstrAt, SizeExpr, SizeBlock;
  }

  lemma {:induction false} ArmListed(c: Code, p: nat, hint: Hint, next: nat, start: nat, body: seq<Stmt>, brk: nat,
                                     tail: seq<Instr>, rest: seq<Instr>)
    requires ListedAt(c, p, (TestCode(hint, next) + (BlockCode(body, start, brk) + tail)) + rest)
    requires start == p + SizeHint(hint) + 5
    ensures TestAt(c, p, hint, next) && BlockAt(c, start, body, brk)
      && ListedAt(c, start + SizeBlock(body), tail + rest)
    decreases body, 1
  {
    var code := BlockCode(body, start, brk);
    Regroup(TestCode(hint, next), code + tail, rest);
    Regroup(code, tail, rest);
    TestListed(c, p, hint, next, code + (tail + rest));
    BlockListed(c, start, body, brk, tail + rest);
  }

  lemma {:induction false} CasesListed(c: Code, at: nat, cases: seq<Case>, end: nat, brk: nat, rest: seq<Instr>)
    requires ListedAt(c, at, CasesCode(cases, at, end, brk) + rest)
    ensures CasesAt(c, at, cases, end, brk) && ListedAt(c, at + SizeCases(cases), rest)
    decreases cases, 0
  {
    hide ListedAt, BlockCode, BlockAt, StmtCode, CaseTestCode, CaseTestAt, InstrAt;
    if cases == [] {
      assert [] + rest == rest;
    } else {
      var next := at + 24 + SizeBlock(cases[0].body) + 5;
      var test, code := CaseTestCode(cases[0], next), BlockCode(cases[0].body, at + 24, brk);
      var tail := CasesCode(cases[1..], next, end, brk);
      Regroup(test, code + ([Jmp(end)] + tail), rest);
      Regroup(code, [Jmp(end)] + tail, rest);
      Regroup([Jmp(end)], tail, rest);
      CaseTestListed(c, at, cases[0], next, code + ([Jmp(end)] + (tail + rest)));
      BlockListed(c, at + 24, cases[0].body, brk, [Jmp(end)] + (tail + rest));
      Peel(c, next - 5, Jmp(end), tail + rest);
      CasesListed(c, next, cases[1..], end, brk, rest);
    }
  }

  lemma {:induction false} PrologueListed(c: Code, at: nat, params: seq<string>, rest: seq<Instr>)
    requires ListedAt(c, at, PrologueCode(params) + rest)
    ensures PrologueAt(c, at, params) && ListedAt(c, at + 9 * |params|, rest)
    decreases |params|
  {
    if params == [] {
      assert [] + rest == rest;
    } else {
      var last, tail := Store(params[|params| - 1]), PrologueCode(params[..|params| - 1]);
      Regroup([last], tail, rest);
      Peel(c, at, last, tail + rest);
      PrologueListed(c, at + 9, params[..|params| - 1], rest);
    }
  }

  lemma FunctionListed(c: Code, f: Function)
    requires ListedAt(c, 0, FunctionCode(f))
    ensures FunctionAt(c, f)
  {
    hide ListedAt, PrologueCode, PrologueAt, BlockCode, BlockAt, InstrAt, SizeBlock;
    var start, null_, ret := 9 * |f.params|, Push(NullLit), Ret;
    var end := start + SizeBlock(f.body);
    assert [null_, ret] == [null_] + ([ret] + []);
    PrologueListed(c, 0, f.params, BlockCode(f.body, start, end) + [null_, ret]);
    BlockListed(c, start, f.body, end, [null_, ret]);
    Peel(c, end, null_, [ret] + []);
    Peel(c, end + 1, ret, []);
  }

  lemma TopListed(c: Code, body: seq<Stmt>)
    requires ListedAt(c, 0, TopCode(body))
    ensures TopAt(c, body)
  {
    assert [Instr.Halt] == [Instr.Halt] + [];
    BlockListed(c, 0, body, SizeBlock(body), [Instr.Halt]);
    Peel(c, SizeBlock(body), Instr.Halt, []);
  }
}
