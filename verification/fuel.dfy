/** More fuel changes no outcome: fuel only decides whether an evaluation gets to its end. */
module Fuel {
  import opened Syntax
  import opened Semantics

  lemma {:induction false} EvalMore(env: Env, e: Expr, st: State, depth: nat, f: nat, g: nat)
    requires f <= g && !Eval(env, e, st, depth, f).Spent?
    ensures Eval(env, e, st, depth, g) == Eval(env, e, st, depth, f)
    decreases f, e, 1
  {
    match e
    case Literal(_) =>
    case Ident(_) =>
    case Apply(_, operands) => EvalAllMore(env, operands, st, depth, f, g);
    case Logical(isAnd, left, right) =>
      EvalMore(env, left, st, depth, f, g);
      var r := Eval(env, left, st, depth, f);
      if r.Val? && IsTruthy(r.v) == isAnd {
        EvalMore(env, right, r.st, depth, f, g);
      }
    case Call(callee, _) =>
      EvalMore(env, callee, st, depth, f, g);
      var r := Eval(env, callee, st, depth, f);
      if r.Val? {
        EvalCallMore(env, e, r.v, r.st, depth, f, g);
      }
  }

  lemma {:induction false} EvalCallMore(env: Env, e: Expr, callee: Value, st: State, depth: nat, f: nat, g: nat)
    requires e.Call? && f <= g && !EvalCall(env, e, callee, st, depth, f).Spent?
    ensures EvalCall(env, e, callee, st, depth, g) == EvalCall(env, e, callee, st, depth, f)
    decreases f, e, 0
  {
    EvalAllMore(env, e.args, st, depth, f, g);
    match EvalAll(env, e.args, st, depth, f)
    case Vals(vs, st1) =>
      match Callable(env, callee, vs, depth) {
        case Enter(fn) =>
          ExecBlockMore(env, fn.body, State(LocalScope(BindParams(fn.params, vs)), st1.w), depth + 1, f - 1, g - 1);
        case _ =>
      }
    case _ =>
  }

  lemma {:induction false} EvalAllMore(env: Env, es: seq<Expr>, st: State, depth: nat, f: nat, g: nat)
    requires f <= g && !EvalAll(env, es, st, depth, f).SpentIn?
    ensures EvalAll(env, es, st, depth, g) == EvalAll(env, es, st, depth, f)
    decreases f, es, 0
  {
    if es != [] {
      EvalMore(env, es[0], st, depth, f, g);
      var r := Eval(env, es[0], st, depth, f);
      if r.Val? {
        EvalAllMore(env, es[1..], r.st, depth, f, g);
      }
    }
  }

  lemma {:induction false} ExecMore(env: Env, s: Stmt, st: State, depth: nat, f: nat, g: nat)
    requires f <= g && !Exec(env, s, st, depth, f).OutOfFuel?
    ensures Exec(env, s, st, depth, g) == Exec(env, s, st, depth, f)
    decreases f, s, 1
  {
    match s
    case Assign(_, _, value) =>
      if s.addAssign && |s.targets| == 1 && s.targets[0].To? {
        if LoadName(s.targets[0].name, st.sc, st.w).Ok? {
          EvalMore(env, value, st, depth, f, g);
        }
      } else {
        EvalMore(env, value, st, depth, f, g);
      }
    case ExprStmt(e) => EvalMore(env, e, st, depth, f, g);
    case Return(e) => EvalMore(env, e, st, depth, f, g);
    case Break =>
    case Block(body) => ExecBlockMore(env, body, st, depth, f, g);
    case If(chain) => ExecChainMore(env, chain, st, depth, f, g);
    case Loop(_, _) => ExecLoopMore(env, s, st, depth, f, g);
    case Match(scrutinee, cases) =>
      EvalMore(env, scrutinee, st, depth, f, g);
      var r := Eval(env, scrutinee, st, depth, f);
      if r.Val? {
        ExecCasesMore(env, r.v, cases, r.st, depth, f, g);
      }
    case Monitor(body, trap, handler) =>
      ExecBlockMore(env, body, st, depth, f, g);
      var r := ExecBlock(env, body, st, depth, f);
      if r.Faulted? {
        ExecBlockMore(env, handler, BindName(trap, ExnV(r.exn), r.st), depth, f, g);
      }
  }

  lemma {:induction false} ExecBlockMore(env: Env, ss: seq<Stmt>, st: State, depth: nat, f: nat, g: nat)
    requires f <= g && !ExecBlock(env, ss, st, depth, f).OutOfFuel?
    ensures ExecBlock(env, ss, st, depth, g) == ExecBlock(env, ss, st, depth, f)
    decreases f, ss, 0
  {
    if ss != [] {
      ExecMore(env, ss[0], st, depth, f, g);
      var r := Exec(env, ss[0], st, depth, f);
      if r.Normal? {
        ExecBlockMore(env, ss[1..], r.st, depth, f, g);
      }
    }
  }

  lemma {:induction false} ExecChainMore(env: Env, ch: Chain, st: State, depth: nat, f: nat, g: nat)
    requires f <= g && !ExecChain(env, ch, st, depth, f).OutOfFuel?
    ensures ExecChain(env, ch, st, depth, g) == ExecChain(env, ch, st, depth, f)
    decreases f, ch, 0
  {
    match ch
    case Else(els) => ExecBlockMore(env, els, st, depth, f, g);
    case Elif(cond, _, body, rest) =>
      EvalMore(env, cond, st, depth, f, g);
      var r := Eval(env, cond, st, depth, f);
      if r.Val? {
        if IsTruthy(r.v) {
          ExecBlockMore(env, body, r.st, depth, f, g);
        } else {
          ExecChainMore(env, rest, r.st, depth, f, g);
        }
      }
  }

  lemma {:induction false} ExecCasesMore(env: Env, v: Value, cases: seq<Case>, st: State, depth: nat, f: nat, g: nat)
    requires f <= g && !ExecCases(env, v, cases, st, depth, f).OutOfFuel?
    ensures ExecCases(env, v, cases, st, depth, g) == ExecCases(env, v, cases, st, depth, f)
    decreases f, cases, 0
  {
    if cases != [] {
      var r := ApplyPrim(env, Binary(Eq), [v, EnumV(cases[0].enumName, cases[0].member)], st);
      if r.Val? {
        if IsTruthy(r.v) {
          ExecBlockMore(env, cases[0].body, r.st, depth, f, g);
        } else {
          ExecCasesMore(env, v, cases[1..], r.st, depth, f, g);
        }
      }
    }
  }

  lemma {:induction false} ExecLoopMore(env: Env, s: Stmt, st: State, depth: nat, f: nat, g: nat)
    requires s.Loop? && f <= g && !ExecLoop(env, s, st, depth, f).OutOfFuel?
    ensures ExecLoop(env, s, st, depth, g) == ExecLoop(env, s, st, depth, f)
    decreases f, s, 0
  {
    if s.cond.Some? {
      EvalMore(env, s.cond.value, st, depth, f, g);
      var r := Eval(env, s.cond.value, st, depth, f);
      if r.Val? && IsTruthy(r.v) {
        LoopBodyMore(env, s, r.st, depth, f, g);
      }
    } else {
      LoopBodyMore(env, s, st, depth, f, g);
    }
  }

  lemma {:induction false} LoopBodyMore(env: Env, s: Stmt, st: State, depth: nat, f: nat, g: nat)
    requires s.Loop? && f <= g && !LoopBody(env, s, st, depth, f).OutOfFuel?
    ensures LoopBody(env, s, st, depth, g) == LoopBody(env, s, st, depth, f)
    decreases f, s.body, 1
  {
    ExecBlockMore(env, s.body, st, depth, f, g);
    var r := ExecBlock(env, s.body, st, depth, f);
    if r.Normal? && f > 0 {
      ExecLoopMore(env, s, r.st, depth, f - 1, g - 1);
    }
  }

  // ---- any two finished evaluations agree ----

  function Max(a: nat, b: nat): nat {
    if a < b then b else a
  }

  lemma EvalAgree(env: Env, e: Expr, st: State, depth: nat, f: nat, g: nat)
    requires !Eval(env, e, st, depth, f).Spent? && !Eval(env, e, st, depth, g).Spent?
    ensures Eval(env, e, st, depth, f) == Eval(env, e, st, depth, g)
  {
    EvalMore(env, e, st, depth, f, Max(f, g));
    EvalMore(env, e, st, depth, g, Max(f, g));
  }

  lemma EvalAllAgree(env: Env, es: seq<Expr>, st: State, depth: nat, f: nat, g: nat)
    requires !EvalAll(env, es, st, depth, f).SpentIn? && !EvalAll(env, es, st, depth, g).SpentIn?
    ensures EvalAll(env, es, st, depth, f) == EvalAll(env, es, st, depth, g)
  {
    EvalAllMore(env, es, st, depth, f, Max(f, g));
    EvalAllMore(env, es, st, depth, g, Max(f, g));
  }

  lemma ExecAgree(env: Env, s: Stmt, st: State, depth: nat, f: nat, g: nat)
    requires !Exec(env, s, st, depth, f).OutOfFuel? && !Exec(env, s, st, depth, g).OutOfFuel?
    ensures Exec(env, s, st, depth, f) == Exec(env, s, st, depth, g)
  {
    ExecMore(env, s, st, depth, f, Max(f, g));
    ExecMore(env, s, st, depth, g, Max(f, g));
  }

  lemma ExecBlockAgree(env: Env, ss: seq<Stmt>, st: State, depth: nat, f: nat, g: nat)
    requires !ExecBlock(env, ss, st, depth, f).OutOfFuel? && !ExecBlock(env, ss, st, depth, g).OutOfFuel?
    ensures ExecBlock(env, ss, st, depth, f) == ExecBlock(env, ss, st, depth, g)
  {
    ExecBlockMore(env, ss, st, depth, f, Max(f, g));
    ExecBlockMore(env, ss, st, depth, g, Max(f, g));
  }
}
