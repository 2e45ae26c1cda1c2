/** When the generator reports an error: exactly where a list of arguments or of targets
    is too long for the byte that counts it. */
module Counts {
  import opened Syntax
  import opened Machine
  import opened Layout
  import opened Listing
  import opened Lowering
  import opened Blobs

  // ---- the source ----

  /** Some call has more than 255 arguments. */
  predicate LongExpr(e: Expr)
    decreases e, 1
  {
    match e
    case Apply(_, operands) => LongExprs(operands)
    case Logical(_, left, right) => LongExpr(left) || LongExpr(right)
    case Call(callee, args) => |args| > 255 || LongExpr(callee) || LongExprs(args)
    case _ => false
  }

  predicate LongExprs(es: seq<Expr>)
    decreases es, 0
  {
    es != [] && (LongExpr(es[0]) || LongExprs(es[1..]))
  }

  predicate LongCond(cond: Option<Expr>) {
    cond.Some? && LongExpr(cond.value)
  }

  /** Some call has more than 255 arguments, or some assignment more than 255 targets. */
  predicate LongStmt(s: Stmt)
    decreases s, 1
  {
    match s
    case Assign(ts, _, value) => |ts| > 255 || LongExpr(value)
    case ExprStmt(e) => LongExpr(e)
    case Return(e) => LongExpr(e)
    case Break => false
    case Block(body) => LongBlock(body)
    case If(chain) => LongChain(chain)
    case Loop(cond, body) => LongCond(cond) || LongBlock(body)
    case Match(scrutinee, cases) => LongExpr(scrutinee) || LongCases(cases)
    case Monitor(body, _, handler) => LongBlock(body) || LongBlock(handler)
  }

  predicate LongBlock(ss: seq<Stmt>)
    decreases ss, 0
  {
    ss != [] && (LongStmt(ss[0]) || LongBlock(ss[1..]))
  }

  predicate LongChain(ch: Chain)
    decreases ch, 0
  {
    match ch
    case Else(els) => LongBlock(els)
    case Elif(cond, _, body, rest) => LongExpr(cond) || LongBlock(body) || LongChain(rest)
  }

  predicate LongCases(cases: seq<Case>)
    decreases cases, 0
  {
    cases != [] && (LongBlock(cases[0].body) || LongCases(cases[1..]))
  }

  // ---- its code ----

  lemma Join(a: seq<Instr>, b: seq<Instr>)
    ensures AnyOverlong(a + b) <==> AnyOverlong(a) || AnyOverlong(b)
  {
    if i :| i in a && Overlong(i) {
      assert i in a + b;
    }
    if i :| i in b && Overlong(i) {
      assert i in a + b;
    }
  }

  lemma Three(a: seq<Instr>, b: seq<Instr>, c: seq<Instr>)
    ensures AnyOverlong(a + (b + c)) <==> AnyOverlong(a) || AnyOverlong(b) || AnyOverlong(c)
  {
    Join(a, b + c);
    Join(b, c);
  }

  lemma Four(a: seq<Instr>, b: seq<Instr>, c: seq<Instr>, d: seq<Instr>)
    ensures AnyOverlong(a + (b + (c + d))) <==> AnyOverlong(a) || AnyOverlong(b) || AnyOverlong(c) || AnyOverlong(d)
  {
    Three(a, b, c + d);
    Join(c, d);
  }

  lemma One(i: Instr)
    ensures AnyOverlong([i]) <==> Overlong(i)
  {
    assert i in [i];
  }

  lemma NoneIn(list: seq<Instr>)
    requires forall i | i in list :: !Overlong(i)
    ensures !AnyOverlong(list)
  {
  }

  lemma {:induction false} ExprCounts(e: Expr, at: nat)
    ensures AnyOverlong(ExprCode(e, at)) <==> LongExpr(e)
    decreases e, 1
  {
    hide AnyOverlong, SizeExpr, LongExprs, ExprsCode;
    match e
    case Literal(l) => One(Push(l));
    case Ident(name) => One(Load(name));
    case Apply(op, operands) =>
      ExprsCount(operands, at);
      One(Do(op));
      Join(ExprsCode(operands, at), [Do(op)]);
    case Logical(isAnd, left, right) =>
      var test := [Dup, ShortcutJump(isAnd, at + SizeExpr(e)), Pop];
      ExprCounts(left, at);
      ExprCounts(right, at + SizeExpr(left) + 7);
      NoneIn(test);
      Three(ExprCode(left, at), test, ExprCode(right, at + SizeExpr(left) + 7));
    case Call(callee, args) =>
      ExprCounts(callee, at);
      ExprsCount(args, at + SizeExpr(callee));
      One(CallN(|args|));
      Three(ExprCode(callee, at), ExprsCode(args, at + SizeExpr(callee)), [CallN(|args|)]);
  }

  lemma {:induction false} ExprsCount(es: seq<Expr>, at: nat)
    ensures AnyOverlong(ExprsCode(es, at)) <==> LongExprs(es)
    decreases es, 0
  {
    hide AnyOverlong, ExprCode, SizeExpr, LongExpr;
    if es == [] {
      NoneIn([]);
    } else {
      ExprCounts(es[0], at);
      ExprsCount(es[1..], at + SizeExpr(es[0]));
      Join(ExprCode(es[0], at), ExprsCode(es[1..], at + SizeExpr(es[0])));
    }
  }

  lemma {:induction false} BindsCount(ts: seq<Target>, addAssign: bool)
    ensures !AnyOverlong(BindsCode(ts, addAssign))
  {
    hide AnyOverlong;
    if ts == [] {
      NoneIn([]);
    } else {
      NoneIn(BindCode(ts[0], addAssign));
      BindsCount(ts[1..], addAssign);
      Join(BindCode(ts[0], addAssign), BindsCode(ts[1..], addAssign));
    }
  }

  lemma AssignCounts(ts: seq<Target>, addAssign: bool, value: Expr, at: nat)
    ensures AnyOverlong(AssignCode(ts, addAssign, value, at)) <==> |ts| > 255 || LongExpr(value)
  {
    hide AnyOverlong, ExprCode, LongExpr, BindsCode;
    if addAssign && |ts| == 1 && ts[0].To? {
      var load, store := [Load(ts[0].name)], [Do(Binary(Add)), Store(ts[0].name)];
      ExprCounts(value, at + 9);
      NoneIn(load);
      NoneIn(store);
      Three(load, ExprCode(value, at + 9), store);
    } else {
      ExprCounts(value, at);
      if |ts| == 1 {
        One(TargetCode(ts[0]));
        Join(ExprCode(value, at), [TargetCode(ts[0])]);
      } else {
        One(Instr.Unpack(|ts|));
        BindsCount(ts, addAssign);
        Three(ExprCode(value, at), [Instr.Unpack(|ts|)], BindsCode(ts, addAssign));
      }
    }
  }

  lemma CondCounts(cond: Option<Expr>, at: nat, end: nat)
    ensures AnyOverlong(CondCode(cond, at, end)) <==> LongCond(cond)
  {
    hide AnyOverlong, ExprCode, LongExpr;
    match cond
    case None => NoneIn([]);
    case Some(e) =>
      ExprCounts(e, at);
      One(JmpIfFalse(end));
      Join(ExprCode(e, at), [JmpIfFalse(end)]);
  }

  lemma {:induction false} StmtCounts(s: Stmt, at: nat, brk: nat)
    ensures AnyOverlong(StmtCode(s, at, brk)) <==> LongStmt(s)
    decreases s, 1
  {
    hide AnyOverlong, ExprCode, LongExpr, LongCond, AssignCode, CondCode, BlockCode, ChainCode, CasesCode, LongBlock,
      LongChain, LongCases;
    hide SizeExpr, SizeStmt, SizeBlock, SizeChain, SizeCases, SizeCond;
    match s
    case Assign(ts, addAssign, value) => AssignCounts(ts, addAssign, value, at);
    case ExprStmt(e) =>
      ExprCounts(e, at);
      One(Pop);
      Join(ExprCode(e, at), [Pop]);
    case Return(e) =>
      ExprCounts(e, at);
      One(Ret);
      Join(ExprCode(e, at), [Ret]);
    case Break => One(Jmp(brk));
    case Block(body) => BlockCounts(body, at, brk);
    case If(chain) => ChainCounts(chain, at, at + SizeChain(chain), brk);
    case Loop(cond, body) =>
      var end := at + SizeStmt(s);
      CondCounts(cond, at, end);
      BlockCounts(body, at + SizeCond(cond), end);
      One(Jmp(at));
      Three(CondCode(cond, at, end), BlockCode(body, at + SizeCond(cond), end), [Jmp(at)]);
    case Match(scrutinee, cases) =>
      ExprCounts(scrutinee, at);
      CasesCount(cases, at + SizeExpr(scrutinee), CasesEnd(s, at), brk);
      One(Pop);
      Three(ExprCode(scrutinee, at), CasesCode(cases, at + SizeExpr(scrutinee), CasesEnd(s, at), brk), [Pop]);
    case Monitor(body, trap, handler) => MonitorCounts(s, at, brk);
  }

  lemma {:induction false} MonitorCounts(s: Stmt, at: nat, brk: nat)
    requires s.Monitor?
    ensures AnyOverlong(StmtCode(s, at, brk)) <==> LongStmt(s)
    decreases s, 0
  {
    hide AnyOverlong, BlockCode, LongBlock, SizeStmt, SizeBlock;
    var exit := BodyEnd(s, at);
    var leave := [MonitorExit, Jmp(at + SizeStmt(s)), Store(s.trap)];
    BlockCounts(s.body, at + 5, brk);
    BlockCounts(s.handler, exit + 15, brk);
    One(MonitorEnter(exit + 6));
    NoneIn(leave);
    Four([MonitorEnter(exit + 6)], BlockCode(s.body, at + 5, brk), leave, BlockCode(s.handler, exit + 15, brk));
  }

  lemma {:induction false} BlockCounts(ss: seq<Stmt>, at: nat, brk: nat)
    ensures AnyOverlong(BlockCode(ss, at, brk)) <==> LongBlock(ss)
    decreases ss, 0
  {
    hide AnyOverlong, StmtCode, SizeStmt, LongStmt;
    if ss == [] {
      NoneIn([]);
    } else {
      StmtCounts(ss[0], at, brk);
      BlockCounts(ss[1..], at + SizeStmt(ss[0]), brk);
      Join(StmtCode(ss[0], at, brk), BlockCode(ss[1..], at + SizeStmt(ss[0]), brk));
    }
  }

  lemma {:induction false} ChainCounts(ch: Chain, at: nat, end: nat, brk: nat)
    ensures AnyOverlong(ChainCode(ch, at, end, brk)) <==> LongChain(ch)
    decreases ch, 0
  {
    hide AnyOverlong, ExprCode, LongExpr, BlockCode, LongBlock, SizeExpr, SizeBlock, NextArm, ArmStart, TestCode;
    match ch
    case Else(els) => BlockCounts(els, at, brk);
    case Elif(cond, hint, body, rest) =>
      var test, code := TestCode(hint, NextArm(ch, at)), BlockCode(body, ArmStart(ch, at), brk);
      ExprCounts(cond, at);
      TestCounts(hint, NextArm(ch, at));
      BlockCounts(body, ArmStart(ch, at), brk);
      ChainCounts(rest, NextArm(ch, at), end, brk);
      One(Jmp(end));
      Four(ExprCode(cond, at), test, code, [Jmp(end)] + ChainCode(rest, NextArm(ch, at), end, brk));
      Join([Jmp(end)], ChainCode(rest, NextArm(ch, at), end, brk));
  }

  lemma TestCounts(hint: Hint, next: nat)
    ensures !AnyOverlong(TestCode(hint, next))
  {
  }

  lemma {:induction false} CasesCount(cases: seq<Case>, at: nat, end: nat, brk: nat)
    ensures AnyOverlong(CasesCode(cases, at, end, brk)) <==> LongCases(cases)
    decreases cases, 0
  {
    hide AnyOverlong, BlockCode, LongBlock, SizeBlock;
    if cases == [] {
      NoneIn([]);
    } else {
      var next := at + 24 + SizeBlock(cases[0].body) + 5;
      var test, code, rest := CaseTestCode(cases[0], next), BlockCode(cases[0].body, at + 24, brk),
        CasesCode(cases[1..], next, end, brk);
      NoneIn(test);
      BlockCounts(cases[0].body, at + 24, brk);
      CasesCount(cases[1..], next, end, brk);
      One(Jmp(end));
      Four(test, code, [Jmp(end)], rest);
    }
  }

  lemma {:induction false} PrologueCounts(params: seq<string>)
    ensures !AnyOverlong(PrologueCode(params))
    decreases |params|
  {
    hide AnyOverlong;
    if params == [] {
      NoneIn([]);
    } else {
      var n := |params| - 1;
      One(Store(params[n]));
      PrologueCounts(params[..n]);
      Join([Store(params[n])], PrologueCode(params[..n]));
    }
  }

  // ---- unrolling ----

  lemma {:induction false} LowerExprCounts(e: Expr, k: Consts)
    ensures LongExpr(LowerExpr(e, k)) <==> LongExpr(e)
    decreases e, 1
  {
    hide LongExprs, LowerExprs;
    match e
    case Literal(_) =>
    case Ident(_) =>
    case Apply(_, operands) => LowerExprsCount(operands, k);
    case Logical(_, left, right) => LowerExprCounts(left, k); LowerExprCounts(right, k);
    case Call(callee, args) => LowerExprCounts(callee, k); LowerExprsCount(args, k);
  }

  lemma {:induction false} LowerExprsCount(es: seq<Expr>, k: Consts)
    ensures LongExprs(LowerExprs(es, k)) <==> LongExprs(es)
    decreases es, 0
  {
    hide LongExpr, LowerExpr;
    if es != [] {
      LowerExprCounts(es[0], k);
      LowerExprsCount(es[1..], k);
      assert LowerExprs(es, k)[1..] == LowerExprs(es[1..], k);
    }
  }

  lemma {:induction false} LowerStmtCounts(s: Stmt, k: Consts)
    ensures LongStmt(LowerStmt(s, k)) <==> LongStmt(s)
    decreases s, 2
  {
    hide LongExpr, LowerExpr, LongBlock, LowerBlock, LongChain, LowerChain, LongCases, LowerCases;
    match s
    case Assign(_, _, value) => LowerExprCounts(value, k);
    case ExprStmt(e) => LowerExprCounts(e, k);
    case Return(e) => LowerExprCounts(e, k);
    case Break =>
    case Block(body) => LowerBlockCounts(body, k);
    case If(chain) => LowerChainCounts(chain, k);
    case Loop(cond, body) =>
      if cond.Some? {
        LowerExprCounts(cond.value, k);
      }
      LowerBlockCounts(body, k);
    case Match(scrutinee, cases) => LowerExprCounts(scrutinee, k); LowerCasesCount(cases, k);
    case Monitor(body, _, handler) => LowerBlockCounts(body, k); LowerBlockCounts(handler, k);
  }

  /** What is dropped when a loop is unrolled has no calls, and some copy is made. */
  lemma {:induction false} LowerBlockCounts(ss: seq<Stmt>, k: Consts)
    ensures LongBlock(LowerBlock(ss, k)) <==> LongBlock(ss)
    decreases ss, 1
  {
    hide LongStmt, LowerStmt, Copies, LowerStmts;
    if ss == [] {
    } else if Pair(ss) {
      var c := MatchCounted(ss[0], ss[1]).value;
      assert ss[1..][0] == ss[1] && ss[1..][1..] == ss[2..];
      PairCounts(ss[0], ss[1]);
      CopiesCount(Work(ss[1]), c, 0, k);
      LowerBlockCounts(ss[2..], k);
      BlockOf(Copies(Work(ss[1]), c, 0, k));
      Cons(Block(Copies(Work(ss[1]), c, 0, k)), LowerBlock(ss[2..], k));
    } else {
      LowerStmtCounts(ss[0], k);
      LowerBlockCounts(ss[1..], k);
      Cons(LowerStmt(ss[0], k), LowerBlock(ss[1..], k));
    }
  }

  lemma Cons(s: Stmt, ss: seq<Stmt>)
    ensures LongBlock([s] + ss) <==> LongStmt(s) || LongBlock(ss)
  {
    assert ([s] + ss)[1..] == ss;
  }

  lemma BlockOf(ss: seq<Stmt>)
    ensures LongStmt(Block(ss)) <==> LongBlock(ss)
  {
  }

  lemma {:induction false} LongJoin(a: seq<Stmt>, b: seq<Stmt>)
    ensures LongBlock(a + b) <==> LongBlock(a) || LongBlock(b)
  {
    hide LongStmt;
    if a == [] {
      assert a + b == b;
    } else {
      LongJoin(a[1..], b);
      assert (a + b)[1..] == a[1..] + b;
    }
  }

  lemma TwoPlain(a: Expr, b: Expr)
    requires !LongExpr(a) && !LongExpr(b)
    ensures !LongExprs([a, b])
  {
    assert [a, b][1..] == [b] && [b][1..] == [];
    assert !LongExprs([]) && !LongExprs([b]);
  }

  lemma PairCounts(init: Stmt, loop: Stmt)
    requires MatchCounted(init, loop).Some?
    ensures !LongStmt(init) && (LongStmt(loop) <==> LongBlock(Work(loop)))
  {
    var cond, last := loop.cond.value, loop.body[|loop.body| - 1];
    assert loop.body == Work(loop) + [last];
    LongJoin(Work(loop), [last]);
    TwoPlain(cond.operands[0], cond.operands[1]);
    assert cond.operands == [cond.operands[0], cond.operands[1]];
    if !last.addAssign {
      TwoPlain(last.value.operands[0], last.value.operands[1]);
    }
    Cons(last, []);
    assert [last] + [] == [last];
  }

  lemma {:induction false} CopiesCount(work: seq<Stmt>, c: Counted, i: nat, k: Consts)
    requires i <= c.trips
    ensures LongBlock(Copies(work, c, i, k)) <==> i < c.trips && LongBlock(work)
    decreases work, 1, c.trips - i
  {
    hide LongStmt, LowerStmts;
    if i < c.trips {
      var copy := LowerStmts(work, k[c.counter := c.start + i]);
      LowerStmtsCount(work, k[c.counter := c.start + i]);
      CopiesCount(work, c, i + 1, k);
      BlockOf(copy);
      Cons(Block(copy), Copies(work, c, i + 1, k));
    }
  }

  lemma {:induction false} LowerStmtsCount(ss: seq<Stmt>, k: Consts)
    ensures LongBlock(LowerStmts(ss, k)) <==> LongBlock(ss)
    decreases ss, 0
  {
    hide LongStmt, LowerStmt;
    if ss != [] {
      LowerStmtCounts(ss[0], k);
      LowerStmtsCount(ss[1..], k);
      Cons(LowerStmt(ss[0], k), LowerStmts(ss[1..], k));
    }
  }

  lemma {:induction false} LowerChainCounts(ch: Chain, k: Consts)
    ensures LongChain(LowerChain(ch, k)) <==> LongChain(ch)
    decreases ch, 0
  {
    match ch
    case Else(els) => LowerBlockCounts(els, k);
    case Elif(cond, _, body, rest) => LowerExprCounts(cond, k); LowerBlockCounts(body, k); LowerChainCounts(rest, k);
  }

  lemma {:induction false} LowerCasesCount(cases: seq<Case>, k: Consts)
    ensures LongCases(LowerCases(cases, k)) <==> LongCases(cases)
    decreases cases, 0
  {
    hide LongBlock, LowerBlock;
    if cases != [] {
      LowerBlockCounts(cases[0].body, k);
      LowerCasesCount(cases[1..], k);
      assert LowerCases(cases, k)[1..] == LowerCases(cases[1..], k);
    }
  }

  // ---- whole blobs ----

  /** The code of a function has a count that does not fit exactly if its source has. */
  lemma FunctionCounts(f: Function)
    ensures AnyOverlong(FunctionCode(LowerFunction(f))) <==> LongBlock(f.body)
  {
    hide AnyOverlong, BlockCode, LongBlock, LowerBlock, SizeBlock, PrologueCode;
    var low, start := LowerBlock(f.body, map[]), 9 * |f.params|;
    PrologueCounts(f.params);
    BlockCounts(low, start, start + SizeBlock(low));
    LowerBlockCounts(f.body, map[]);
    NoneIn([Push(NullLit), Ret]);
    Three(PrologueCode(f.params), BlockCode(low, start, start + SizeBlock(low)), [Push(NullLit), Ret]);
  }

  lemma TopCounts(body: seq<Stmt>)
    ensures AnyOverlong(TopCode(LowerBlock(body, map[]))) <==> LongBlock(body)
  {
    hide AnyOverlong, BlockCode, LongBlock, LowerBlock, SizeBlock;
    var low := LowerBlock(body, map[]);
    BlockCounts(low, 0, SizeBlock(low));
    LowerBlockCounts(body, map[]);
    One(Instr.Halt);
    Join(BlockCode(low, 0, SizeBlock(low)), [Instr.Halt]);
  }
}
