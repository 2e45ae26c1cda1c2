/** Loop unrolling, as a rewriting of the syntax tree.

    The generator unrolls a counted loop while it emits code: the loop body is emitted
    once per iteration with the counter bound to a constant, and the initialisation and
    the increment are dropped. What comes out is exactly the code of the tree computed
    here, in which those copies are written out. */
module Lowering {
  import opened Syntax

  const MaxUnroll: nat := 32

  /** Counters that are currently constants. */
  type Consts = map<string, int>

  function LowerExpr(e: Expr, k: Consts): Expr
    decreases e, 1
  {
    match e
    case Literal(_) => e
    case Ident(name) => if name in k then Literal(IntLit(k[name])) else e
    case Apply(op, operands) => Apply(op, LowerExprs(operands, k))
    case Logical(isAnd, left, right) => Logical(isAnd, LowerExpr(left, k), LowerExpr(right, k))
    case Call(callee, args) => Call(LowerExpr(callee, k), LowerExprs(args, k))
  }

  function LowerExprs(es: seq<Expr>, k: Consts): (r: seq<Expr>)
    ensures |r| == |es|
    decreases es, 0
  {
    if es == [] then [] else [LowerExpr(es[0], k)] + LowerExprs(es[1..], k)
  }

  // ---- the pattern ----

  datatype Counted = Counted(counter: string, start: int, trips: nat)

  predicate IsIntLit(e: Expr) {
    e.Literal? && e.lit.IntLit?
  }

  /** `counter = start`. */
  predicate IsInit(s: Stmt) {
    s.Assign? && !s.addAssign && |s.targets| == 1 && s.targets[0].To? && IsIntLit(s.value)
  }

  /** `counter < bound` or `counter <= bound`. */
  predicate IsBound(e: Expr, counter: string) {
    && e.Apply? && (e.op == Binary(Lt) || e.op == Binary(Le)) && |e.operands| == 2
    && e.operands[0] == Ident(counter) && IsIntLit(e.operands[1])
  }

  function Limit(e: Expr): int
    requires e.Apply? && |e.operands| == 2 && IsIntLit(e.operands[1])
  {
    if e.op == Binary(Lt) then e.operands[1].lit.i else e.operands[1].lit.i + 1
  }

  /** `counter += 1` or `counter = counter + 1`. */
  predicate IsIncrement(s: Stmt, counter: string) {
    && s.Assign? && s.targets == [To(counter)]
    && if s.addAssign then s.value == Literal(IntLit(1))
       else s.value == Apply(Binary(Add), [Ident(counter), Literal(IntLit(1))])
  }

  /** The loop behind an initialisation runs a known, small number of times. */
  function MatchCounted(init: Stmt, loop: Stmt): (r: Option<Counted>)
    ensures r.Some? ==> IsInit(init) && loop.Loop? && loop.cond.Some? && IsBound(loop.cond.value, r.value.counter)
    ensures r.Some? ==> loop.body != [] && IsIncrement(loop.body[|loop.body| - 1], r.value.counter)
    ensures r.Some? ==> 0 < r.value.trips <= MaxUnroll && r.value.start + r.value.trips == Limit(loop.cond.value)
    ensures r.Some? ==> r.value.counter == init.targets[0].name && r.value.start == init.value.lit.i
  {
    if !loop.Loop? || loop.cond.None? || !IsInit(init) then None
    else
      var counter, start, cond := init.targets[0].name, init.value.lit.i, loop.cond.value;
      if !IsBound(cond, counter) || cond.operands[1].lit.i < start then None
      else if loop.body == [] || !IsIncrement(loop.body[|loop.body| - 1], counter) then None
      else
        var trips := Limit(cond) - start;
        if trips <= 0 || trips > MaxUnroll then None else Some(Counted(counter, start, trips))
  }

  /** Exactly which loops are unrolled: the counter starts at a literal, is compared with a
      literal and is counted up last of all, for 1 to 32 trips. The matcher's own test that
      the bound is not below the start rules out nothing else. */
  lemma MatchedExactly(init: Stmt, loop: Stmt)
    ensures MatchCounted(init, loop).Some? <==>
      && IsInit(init) && loop.Loop? && loop.cond.Some? && IsBound(loop.cond.value, init.targets[0].name)
      && loop.body != [] && IsIncrement(loop.body[|loop.body| - 1], init.targets[0].name)
      && 0 < Limit(loop.cond.value) - init.value.lit.i <= MaxUnroll
  {
  }

  /** The head of a statement list is a counted loop. */
  predicate Pair(ss: seq<Stmt>) {
    |ss| >= 2 && MatchCounted(ss[0], ss[1]).Some?
  }

  /** The body without its increment. */
  function Work(loop: Stmt): (r: seq<Stmt>)
    requires loop.Loop? && loop.body != []
  {
    loop.body[..|loop.body| - 1]
  }

  // ---- the rewriting ----

  function LowerStmt(s: Stmt, k: Consts): Stmt
    decreases s, 2
  {
    match s
    case Assign(targets, addAssign, value) => Assign(targets, addAssign, LowerExpr(value, k))
    case ExprStmt(e) => ExprStmt(LowerExpr(e, k))
    case Return(e) => Return(LowerExpr(e, k))
    case Break => Break
    case Block(body) => Block(LowerBlock(body, k))
    case If(chain) => If(LowerChain(chain, k))
    case Loop(cond, body) => Loop(LowerCond(cond, k), LowerBlock(body, k))
    case Match(scrutinee, cases) => Match(LowerExpr(scrutinee, k), LowerCases(cases, k))
    case Monitor(body, trap, handler) => Monitor(LowerBlock(body, k), trap, LowerBlock(handler, k))
  }

  function LowerCond(cond: Option<Expr>, k: Consts): Option<Expr> {
    match cond
    case None => None
    case Some(e) => Some(LowerExpr(e, k))
  }

  /** A statement list: counted loops in it are unrolled. */
  function LowerBlock(ss: seq<Stmt>, k: Consts): seq<Stmt>
    decreases ss, 1
  {
    if ss == [] then []
    else if Pair(ss) then
      var c := MatchCounted(ss[0], ss[1]).value;
      [Block(Copies(Work(ss[1]), c, 0, k))] + LowerBlock(ss[2..], k)
    else [LowerStmt(ss[0], k)] + LowerBlock(ss[1..], k)
  }

  /** Iterations `i` and up of an unrolled loop. */
  function Copies(work: seq<Stmt>, c: Counted, i: nat, k: Consts): seq<Stmt>
    requires i <= c.trips
    decreases work, 1, c.trips - i
  {
    if i == c.trips then []
    else [Block(LowerStmts(work, k[c.counter := c.start + i]))] + Copies(work, c, i + 1, k)
  }

  /** The statements of an unrolled body; a counted loop that stands directly in it is
      not looked for. */
  function LowerStmts(ss: seq<Stmt>, k: Consts): seq<Stmt>
    decreases ss, 0
  {
    if ss == [] then [] else [LowerStmt(ss[0], k)] + LowerStmts(ss[1..], k)
  }

  function LowerChain(ch: Chain, k: Consts): Chain
    decreases ch, 0
  {
    match ch
    case Else(els) => Else(LowerBlock(els, k))
    case Elif(cond, hint, body, rest) => Elif(LowerExpr(cond, k), hint, LowerBlock(body, k), LowerChain(rest, k))
  }

  function LowerCases(cases: seq<Case>, k: Consts): seq<Case>
    decreases cases, 0
  {
    if cases == [] then []
    else [Case(cases[0].enumName, cases[0].member, LowerBlock(cases[0].body, k))] + LowerCases(cases[1..], k)
  }

  function LowerFunction(f: Function): Function {
    Function(f.params, LowerBlock(f.body, map[]))
  }

  // ---- well-formedness is kept ----

  lemma {:induction false} LowerExprWf(e: Expr, k: Consts)
    requires WfExpr(e)
    ensures WfExpr(LowerExpr(e, k))
    decreases e, 1
  {
    match e
    case Literal(_) =>
    case Ident(_) =>
    case Apply(_, operands) => LowerExprsWf(operands, k);
    case Logical(_, left, right) => LowerExprWf(left, k); LowerExprWf(right, k);
    case Call(callee, args) => LowerExprWf(callee, k); LowerExprsWf(args, k);
  }

  lemma {:induction false} LowerExprsWf(es: seq<Expr>, k: Consts)
    requires WfExprs(es)
    ensures WfExprs(LowerExprs(es, k))
    decreases es, 0
  {
    if es != [] {
      LowerExprWf(es[0], k);
      LowerExprsWf(es[1..], k);
      assert LowerExprs(es, k)[1..] == LowerExprs(es[1..], k);
    }
  }

  lemma {:induction false} LowerStmtWf(s: Stmt, k: Consts)
    requires WfStmt(s)
    ensures WfStmt(LowerStmt(s, k))
    decreases s, 2
  {
    match s
    case Assign(_, _, value) => LowerExprWf(value, k);
    case ExprStmt(e) => LowerExprWf(e, k);
    case Return(e) => LowerExprWf(e, k);
    case Break =>
    case Block(body) => LowerBlockWf(body, k);
    case If(chain) => LowerChainWf(chain, k);
    case Loop(cond, body) =>
      if cond.Some? {
        LowerExprWf(cond.value, k);
      }
      LowerBlockWf(body, k);
    case Match(scrutinee, cases) => LowerExprWf(scrutinee, k); LowerCasesWf(cases, k);
    case Monitor(body, _, handler) => LowerBlockWf(body, k); LowerBlockWf(handler, k);
  }

  lemma {:induction false} LowerBlockWf(ss: seq<Stmt>, k: Consts)
    requires WfBlock(ss)
    ensures WfBlock(LowerBlock(ss, k))
    decreases ss, 1
  {
    if ss == [] {
    } else if Pair(ss) {
      var c := MatchCounted(ss[0], ss[1]).value;
      assert ss[1..][0] == ss[1] && ss[1..][1..] == ss[2..];
      assert WfBlock(ss[1..]) && WfStmt(ss[1]) && WfBlock(ss[2..]);
      WfPrefix(ss[1].body, |ss[1].body| - 1);
      CopiesWf(Work(ss[1]), c, 0, k);
      LowerBlockWf(ss[2..], k);
      ConsWf(Block(Copies(Work(ss[1]), c, 0, k)), LowerBlock(ss[2..], k));
    } else {
      LowerStmtWf(ss[0], k);
      LowerBlockWf(ss[1..], k);
      ConsWf(LowerStmt(ss[0], k), LowerBlock(ss[1..], k));
    }
  }

  lemma ConsWf(s: Stmt, ss: seq<Stmt>)
    requires WfStmt(s) && WfBlock(ss)
    ensures WfBlock([s] + ss)
  {
    assert ([s] + ss)[1..] == ss;
  }

  lemma {:induction false} WfPrefix(ss: seq<Stmt>, n: nat)
    requires WfBlock(ss) && n <= |ss|
    ensures WfBlock(ss[..n])
  {
    if n > 0 {
      WfPrefix(ss[1..], n - 1);
      assert ss[..n][1..] == ss[1..][..n - 1];
    }
  }

  lemma {:induction false} CopiesWf(work: seq<Stmt>, c: Counted, i: nat, k: Consts)
    requires i <= c.trips && WfBlock(work)
    ensures WfBlock(Copies(work, c, i, k))
    decreases work, 1, c.trips - i
  {
    if i < c.trips {
      LowerStmtsWf(work, k[c.counter := c.start + i]);
      CopiesWf(work, c, i + 1, k);
      ConsWf(Block(LowerStmts(work, k[c.counter := c.start + i])), Copies(work, c, i + 1, k));
    }
  }

  lemma {:induction false} LowerStmtsWf(ss: seq<Stmt>, k: Consts)
    requires WfBlock(ss)
    ensures WfBlock(LowerStmts(ss, k))
    decreases ss, 0
  {
    if ss != [] {
      LowerStmtWf(ss[0], k);
      LowerStmtsWf(ss[1..], k);
      ConsWf(LowerStmt(ss[0], k), LowerStmts(ss[1..], k));
    }
  }

  lemma {:induction false} LowerChainWf(ch: Chain, k: Consts)
    requires WfChain(ch)
    ensures WfChain(LowerChain(ch, k))
    decreases ch, 0
  {
    match ch
    case Else(els) => LowerBlockWf(els, k);
    case Elif(cond, _, body, rest) => LowerExprWf(cond, k); LowerBlockWf(body, k); LowerChainWf(rest, k);
  }

  lemma {:induction false} LowerCasesWf(cases: seq<Case>, k: Consts)
    requires WfCases(cases)
    ensures WfCases(LowerCases(cases, k))
    decreases cases, 0
  {
    if cases != [] {
      LowerBlockWf(cases[0].body, k);
      LowerCasesWf(cases[1..], k);
      assert LowerCases(cases, k)[1..] == LowerCases(cases[1..], k);
    }
  }
}