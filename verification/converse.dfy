/** The unrolled program ends only if the program as written does: wherever the unrolled
    one gets to an end with some fuel, the source gets to an end with enough fuel. */
module Converse {
  import opened Syntax
  import opened Semantics
  import opened Lowering
  import opened Breaks
  import opened Values
  import opened Fuel
  import opened Unrolling

  /** Everything the lemmas below assume of where they start. */
  ghost predicate Start(sc: Scene, env: Env, k: Consts, stale: set<string>, st: State, lo: State) {
    Setting(env, sc.names) && Linked(sc, k, stale, st, lo)
  }

  lemma {:induction false} ExprEnds(sc: Scene, env: Env, k: Consts, stale: set<string>, e: Expr, st: State, lo: State,
      depth: nat, fuel: nat)
    returns (g: nat)
    requires Start(sc, env, k, stale, st, lo) && SafeExpr(e, k.Keys, stale)
    requires !Eval(LowerEnv(env), LowerExpr(e, k), lo, depth, fuel).Spent?
    ensures !Eval(env, e, st, depth, g).Spent?
    ensures ExprSame(sc, k, stale, Eval(env, e, st, depth, g), Eval(LowerEnv(env), LowerExpr(e, k), lo, depth, fuel))
    decreases fuel, e, 1
  {
    hide Setting, Linked, EvalAll, SafeExprs, EvalCall;
    g := 0;
    match e {
      case Literal(_) =>
      case Ident(_) =>
      case Apply(_, operands) => g := ExprsEnd(sc, env, k, stale, operands, st, lo, depth, fuel);
      case Logical(isAnd, left, right) =>
        g := ExprEnds(sc, env, k, stale, left, st, lo, depth, fuel);
        var r, q := Eval(env, left, st, depth, g), Eval(LowerEnv(env), LowerExpr(left, k), lo, depth, fuel);
        if r.Val? && IsTruthy(r.v) == isAnd {
          var h := ExprEnds(sc, env, k, stale, right, r.st, q.st, depth, fuel);
          EvalMore(env, left, st, depth, g, Max(g, h));
          EvalMore(env, right, r.st, depth, h, Max(g, h));
          g := Max(g, h);
        }
      case Call(callee, _) =>
        g := ExprEnds(sc, env, k, stale, callee, st, lo, depth, fuel);
        var r, q := Eval(env, callee, st, depth, g), Eval(LowerEnv(env), LowerExpr(callee, k), lo, depth, fuel);
        if r.Val? {
          var h := CallEnds(sc, env, k, stale, e, r.v, r.st, q.st, depth, fuel);
          EvalMore(env, callee, st, depth, g, Max(g, h));
          EvalCallMore(env, e, r.v, r.st, depth, h, Max(g, h));
          g := Max(g, h);
        }
    }
    ExprLowered(sc, env, k, stale, e, st, lo, depth, g);
    EvalAgree(LowerEnv(env), LowerExpr(e, k), lo, depth, g, fuel);
  }

  lemma {:induction false} ExprsEnd(sc: Scene, env: Env, k: Consts, stale: set<string>, es: seq<Expr>, st: State,
      lo: State, depth: nat, fuel: nat)
    returns (g: nat)
    requires Start(sc, env, k, stale, st, lo) && SafeExprs(es, k.Keys, stale)
    requires !EvalAll(LowerEnv(env), LowerExprs(es, k), lo, depth, fuel).SpentIn?
    ensures !EvalAll(env, es, st, depth, g).SpentIn?
    ensures ExprsSame(sc, k, stale, EvalAll(env, es, st, depth, g),
      EvalAll(LowerEnv(env), LowerExprs(es, k), lo, depth, fuel))
    decreases fuel, es, 0
  {
    g := 0;
    if es != [] {
      g := ExprEnds(sc, env, k, stale, es[0], st, lo, depth, fuel);
      var r, q := Eval(env, es[0], st, depth, g), Eval(LowerEnv(env), LowerExpr(es[0], k), lo, depth, fuel);
      if r.Val? {
        var h := ExprsEnd(sc, env, k, stale, es[1..], r.st, q.st, depth, fuel);
        EvalMore(env, es[0], st, depth, g, Max(g, h));
        EvalAllMore(env, es[1..], r.st, depth, h, Max(g, h));
        g := Max(g, h);
      }
    }
    ExprsLowered(sc, env, k, stale, es, st, lo, depth, g);
    EvalAllAgree(LowerEnv(env), LowerExprs(es, k), lo, depth, g, fuel);
  }

  lemma {:induction false} CallEnds(sc: Scene, env: Env, k: Consts, stale: set<string>, e: Expr, f: Value, st: State,
      lo: State, depth: nat, fuel: nat) returns (g: nat)
    requires e.Call? && Start(sc, env, k, stale, st, lo) && SafeExpr(e, k.Keys, stale)
    requires !EvalCall(LowerEnv(env), LowerExpr(e, k), f, lo, depth, fuel).Spent?
    ensures !EvalCall(env, e, f, st, depth, g).Spent?
    decreases fuel, e, 0
  {
    hide Setting, Linked, EvalAll, ExecBlock;
    g := ExprsEnd(sc, env, k, stale, e.args, st, lo, depth, fuel);
    var r, q := EvalAll(env, e.args, st, depth, g), EvalAll(LowerEnv(env), LowerExprs(e.args, k), lo, depth, fuel);
    if r.Vals? {
      var plan := Callable(env, f, r.vs, depth);
      if plan.Enter? {
        var h := EnterEnds(sc, env, k, stale, f.func, r.vs, r.st, q.st, depth, fuel);
        EvalAllMore(env, e.args, st, depth, g, Max(g, h));
        ExecBlockMore(env, plan.fn.body, State(LocalScope(BindParams(plan.fn.params, r.vs)), r.st.w), depth + 1, h - 1,
          Max(g, h) - 1);
        g := Max(g, h);
      }
    }
  }

  lemma {:induction false} EnterEnds(sc: Scene, env: Env, k: Consts, stale: set<string>, f: string, vs: seq<Value>,
      st: State, lo: State, depth: nat, fuel: nat) returns (g: nat)
    requires fuel > 0 && f in env.funs && |vs| == |env.funs[f].params| && Start(sc, env, k, stale, st, lo)
    requires !CallOf(LowerEnv(env), LowerFunction(env.funs[f]), vs, lo, depth, fuel).Spent?
    ensures g > 0 && !ExecBlock(env, env.funs[f].body, State(LocalScope(BindParams(env.funs[f].params, vs)), st.w),
      depth + 1, g - 1).OutOfFuel?
    decreases fuel - 1, env.funs[f].body, 4
  {
    var fn, hidden, none: Consts := env.funs[f], sc.names.hidden, map[];
    var inner := Scene(sc.names.(local := true), Only(st.w.globals, hidden), Only(lo.w.globals, hidden));
    var scope := LocalScope(BindParams(fn.params, vs));
    SettingLocal(env, sc.names);
    HiddenAgree(sc, k, stale, st, lo);
    assert none.Keys == {};
    assert SafeBlock(fn.body, {}, hidden, inner.names);
    assert Linked(inner, none, hidden, State(scope, st.w), State(scope, lo.w));
    g := BlockEnds(inner, env, none, hidden, fn.body, State(scope, st.w), State(scope, lo.w), depth + 1, fuel - 1);
    g := g + 1;
  }

  lemma {:induction false} StmtEnds(sc: Scene, env: Env, k: Consts, stale: set<string>, s: Stmt, st: State, lo: State,
      depth: nat, fuel: nat)
    returns (g: nat)
    requires Start(sc, env, k, stale, st, lo) && SafeStmt(s, k.Keys, stale, sc.names)
    requires !Exec(LowerEnv(env), LowerStmt(s, k), lo, depth, fuel).OutOfFuel?
    ensures !Exec(env, s, st, depth, g).OutOfFuel?
    ensures Same(sc, k, After(s, stale), stale + Counters(s), Exec(env, s, st, depth, g),
                 Exec(LowerEnv(env), LowerStmt(s, k), lo, depth, fuel))
    decreases fuel, s, 2
  {
    hide Setting, Linked, ExecBlock, ExecChain, ExecLoop, ExecCases;
    g := 0;
    match s {
      case Assign(_, _, _) => g := AssignEnds(sc, env, k, stale, s, st, lo, depth, fuel);
      case ExprStmt(e) => g := ExprEnds(sc, env, k, stale, e, st, lo, depth, fuel);
      case Return(e) => g := ExprEnds(sc, env, k, stale, e, st, lo, depth, fuel);
      case Break =>
      case Block(body) => g := BlockEnds(sc, env, k, stale, body, st, lo, depth, fuel);
      case If(chain) => g := ChainEnds(sc, env, k, stale, chain, st, lo, depth, fuel);
      case Loop(_, body) =>
        LinkedMore(sc, k, stale, stale + BlockCounters(body), st, lo);
        g := LoopEnds(sc, env, k, stale + BlockCounters(body), s, st, lo, depth, fuel);
      case Match(_, _) => g := MatchEnds(sc, env, k, stale, s, st, lo, depth, fuel);
      case Monitor(_, _, _) => g := MonitorEnds(sc, env, k, stale, s, st, lo, depth, fuel);
    }
    StmtLowered(sc, env, k, stale, s, st, lo, depth, g);
    ExecAgree(LowerEnv(env), LowerStmt(s, k), lo, depth, g, fuel);
  }

  lemma {:induction false} AddAssignEnds(sc: Scene, env: Env, k: Consts, stale: set<string>, s: Stmt, st: State,
      lo: State, depth: nat, fuel: nat)
    returns (g: nat)
    requires s.Assign? && s.addAssign && |s.targets| == 1 && s.targets[0].To? && Start(sc, env, k, stale, st, lo)
      && SafeStmt(s, k.Keys, stale, sc.names)
    requires !Exec(LowerEnv(env), LowerStmt(s, k), lo, depth, fuel).OutOfFuel?
    ensures !Exec(env, s, st, depth, g).OutOfFuel?
    decreases fuel, s, 0
  {
    hide Setting, BindAll;
    g := 0;
    LoadSame(sc, k, stale, st, lo, s.targets[0].name);
    if LoadName(s.targets[0].name, st.sc, st.w).Ok? {
      g := ExprEnds(sc, env, k, stale, s.value, st, lo, depth, fuel);
    }
  }

  lemma {:induction false} AssignEnds(sc: Scene, env: Env, k: Consts, stale: set<string>, s: Stmt, st: State, lo: State,
      depth: nat, fuel: nat)
    returns (g: nat)
    requires s.Assign? && Start(sc, env, k, stale, st, lo) && SafeStmt(s, k.Keys, stale, sc.names)
    requires !Exec(LowerEnv(env), LowerStmt(s, k), lo, depth, fuel).OutOfFuel?
    ensures !Exec(env, s, st, depth, g).OutOfFuel?
    decreases fuel, s, 1
  {
    hide Setting, BindAll;
    if s.addAssign && |s.targets| == 1 && s.targets[0].To? {
      g := AddAssignEnds(sc, env, k, stale, s, st, lo, depth, fuel);
    } else {
      g := ExprEnds(sc, env, k, stale, s.value, st, lo, depth, fuel);
      var r := Eval(env, s.value, st, depth, g);
      if r.Val? && |s.targets| != 1 {
        var vs := Unpacked(env, r.v, |s.targets|, r.st.w.heap);
        if vs.Some? {
          BindAllEnds(env, s.targets, s.addAssign, vs.value, r.st);
        }
      }
    }
  }

  lemma {:induction false} BindAllEnds(env: Env, ts: seq<Target>, addAssign: bool, vs: seq<Value>, st: State)
    requires |ts| == |vs|
    ensures !BindAll(env, ts, addAssign, vs, st).OutOfFuel?
    decreases |ts|
  {
    if ts != [] {
      if addAssign && ts[0].To? {
        var r := AddTo(env, ts[0].name, vs[0], st);
        if r.Normal? {
          BindAllEnds(env, ts[1..], addAssign, vs[1..], r.st);
        }
      } else {
        BindAllEnds(env, ts[1..], addAssign, vs[1..], BindTarget(ts[0], vs[0], st));
      }
    }
  }

  lemma {:induction false} MatchEnds(sc: Scene, env: Env, k: Consts, stale: set<string>, s: Stmt, st: State, lo: State,
      depth: nat, fuel: nat)
    returns (g: nat)
    requires s.Match? && Start(sc, env, k, stale, st, lo) && SafeStmt(s, k.Keys, stale, sc.names)
    requires !Exec(LowerEnv(env), LowerStmt(s, k), lo, depth, fuel).OutOfFuel?
    ensures !Exec(env, s, st, depth, g).OutOfFuel?
    decreases fuel, s, 1
  {
    g := ExprEnds(sc, env, k, stale, s.scrutinee, st, lo, depth, fuel);
    var r, q := Eval(env, s.scrutinee, st, depth, g), Eval(LowerEnv(env), LowerExpr(s.scrutinee, k), lo, depth, fuel);
    if r.Val? {
      var h := CasesEnd(sc, env, k, stale, r.v, s.cases, r.st, q.st, depth, fuel);
      EvalMore(env, s.scrutinee, st, depth, g, Max(g, h));
      ExecCasesMore(env, r.v, s.cases, r.st, depth, h, Max(g, h));
      g := Max(g, h);
    }
  }

  lemma {:induction false} MonitorEnds(sc: Scene, env: Env, k: Consts, stale: set<string>, s: Stmt, st: State,
      lo: State, depth: nat, fuel: nat)
    returns (g: nat)
    requires s.Monitor? && Start(sc, env, k, stale, st, lo) && SafeStmt(s, k.Keys, stale, sc.names)
    requires !Exec(LowerEnv(env), LowerStmt(s, k), lo, depth, fuel).OutOfFuel?
    ensures !Exec(env, s, st, depth, g).OutOfFuel?
    decreases fuel, s, 1
  {
    var mid := stale + BlockCounters(s.body);
    g := BlockEnds(sc, env, k, stale, s.body, st, lo, depth, fuel);
    var r, q := ExecBlock(env, s.body, st, depth, g), ExecBlock(LowerEnv(env), LowerBlock(s.body, k), lo, depth, fuel);
    if r.Faulted? {
      BindTargetSame(sc, k, mid, r.st, q.st, To(s.trap), ExnV(r.exn));
      var st1, lo1 := BindName(s.trap, ExnV(r.exn), r.st), BindName(s.trap, ExnV(r.exn), q.st);
      var h := BlockEnds(sc, env, k, mid, s.handler, st1, lo1, depth, fuel);
      ExecBlockMore(env, s.body, st, depth, g, Max(g, h));
      ExecBlockMore(env, s.handler, st1, depth, h, Max(g, h));
      g := Max(g, h);
    }
  }

  lemma {:induction false} ChainEnds(sc: Scene, env: Env, k: Consts, stale: set<string>, ch: Chain, st: State,
      lo: State, depth: nat, fuel: nat)
    returns (g: nat)
    requires Start(sc, env, k, stale, st, lo) && SafeChain(ch, k.Keys, stale, sc.names)
    requires !ExecChain(LowerEnv(env), LowerChain(ch, k), lo, depth, fuel).OutOfFuel?
    ensures !ExecChain(env, ch, st, depth, g).OutOfFuel?
    decreases fuel, ch, 1
  {
    match ch
    case Else(els) => g := BlockEnds(sc, env, k, stale, els, st, lo, depth, fuel);
    case Elif(cond, _, body, rest) =>
      g := ExprEnds(sc, env, k, stale, cond, st, lo, depth, fuel);
      var r, q := Eval(env, cond, st, depth, g), Eval(LowerEnv(env), LowerExpr(cond, k), lo, depth, fuel);
      if r.Val? {
        var h;
        if IsTruthy(r.v) {
          h := BlockEnds(sc, env, k, stale, body, r.st, q.st, depth, fuel);
          ExecBlockMore(env, body, r.st, depth, h, Max(g, h));
        } else {
          h := ChainEnds(sc, env, k, stale, rest, r.st, q.st, depth, fuel);
          ExecChainMore(env, rest, r.st, depth, h, Max(g, h));
        }
        EvalMore(env, cond, st, depth, g, Max(g, h));
        g := Max(g, h);
      }
  }

  lemma {:induction false} CasesEnd(sc: Scene, env: Env, k: Consts, stale: set<string>, v: Value, cases: seq<Case>,
      st: State, lo: State, depth: nat, fuel: nat) returns (g: nat)
    requires Start(sc, env, k, stale, st, lo) && SafeCases(cases, k.Keys, stale, sc.names)
    requires !ExecCases(LowerEnv(env), v, LowerCases(cases, k), lo, depth, fuel).OutOfFuel?
    ensures !ExecCases(env, v, cases, st, depth, g).OutOfFuel?
    decreases fuel, cases, 1
  {
    g := 0;
    if cases != [] {
      var member := EnumV(cases[0].enumName, cases[0].member);
      PrimSame(sc, env, k, stale, Binary(Eq), [v, member], st, lo);
      var r, q := ApplyPrim(env, Binary(Eq), [v, member], st), ApplyPrim(LowerEnv(env), Binary(Eq), [v, member], lo);
      if r.Val? {
        if IsTruthy(r.v) {
          g := BlockEnds(sc, env, k, stale, cases[0].body, r.st, q.st, depth, fuel);
        } else {
          g := CasesEnd(sc, env, k, stale, v, cases[1..], r.st, q.st, depth, fuel);
        }
      }
    }
  }

  lemma {:induction false} LoopEnds(sc: Scene, env: Env, k: Consts, stale: set<string>, s: Stmt, st: State, lo: State,
      depth: nat, fuel: nat)
    returns (g: nat)
    requires s.Loop? && Start(sc, env, k, stale, st, lo) && BlockCounters(s.body) <= stale
    requires (s.cond.Some? ==> SafeExpr(s.cond.value, k.Keys, stale)) && SafeBlock(s.body, k.Keys, stale, sc.names)
    requires !ExecLoop(LowerEnv(env), LowerStmt(s, k), lo, depth, fuel).OutOfFuel?
    ensures !ExecLoop(env, s, st, depth, g).OutOfFuel?
    decreases fuel, s, 1
  {
    if s.cond.Some? {
      g := ExprEnds(sc, env, k, stale, s.cond.value, st, lo, depth, fuel);
      var r, q := Eval(env, s.cond.value, st, depth, g),
        Eval(LowerEnv(env), LowerExpr(s.cond.value, k), lo, depth, fuel);
      if r.Val? && IsTruthy(r.v) {
        var h := LoopBodyEnds(sc, env, k, stale, s, r.st, q.st, depth, fuel);
        EvalMore(env, s.cond.value, st, depth, g, Max(g, h));
        LoopBodyMore(env, s, r.st, depth, h, Max(g, h));
        g := Max(g, h);
      }
    } else {
      g := LoopBodyEnds(sc, env, k, stale, s, st, lo, depth, fuel);
    }
  }

  lemma {:induction false} LoopBodyEnds(sc: Scene, env: Env, k: Consts, stale: set<string>, s: Stmt, st: State,
      lo: State, depth: nat, fuel: nat)
    returns (g: nat)
    requires s.Loop? && Start(sc, env, k, stale, st, lo) && BlockCounters(s.body) <= stale
    requires (s.cond.Some? ==> SafeExpr(s.cond.value, k.Keys, stale)) && SafeBlock(s.body, k.Keys, stale, sc.names)
    requires !LoopBody(LowerEnv(env), LowerStmt(s, k), lo, depth, fuel).OutOfFuel?
    ensures !LoopBody(env, s, st, depth, g).OutOfFuel?
    decreases fuel, s, 0
  {
    g := BlockEnds(sc, env, k, stale, s.body, st, lo, depth, fuel);
    assert stale + BlockCounters(s.body) == stale;
    var r, q := ExecBlock(env, s.body, st, depth, g), ExecBlock(LowerEnv(env), LowerBlock(s.body, k), lo, depth, fuel);
    if r.Normal? {
      var h := LoopEnds(sc, env, k, stale, s, r.st, q.st, depth, fuel - 1);
      ExecBlockMore(env, s.body, st, depth, g, Max(g, h + 1));
      ExecLoopMore(env, s, r.st, depth, h, Max(g, h + 1) - 1);
      g := Max(g, h + 1);
    }
  }

  lemma {:induction false} BlockEnds(sc: Scene, env: Env, k: Consts, stale: set<string>, ss: seq<Stmt>, st: State,
      lo: State, depth: nat, fuel: nat)
    returns (g: nat)
    requires Start(sc, env, k, stale, st, lo) && SafeBlock(ss, k.Keys, stale, sc.names)
    requires !ExecBlock(LowerEnv(env), LowerBlock(ss, k), lo, depth, fuel).OutOfFuel?
    ensures !ExecBlock(env, ss, st, depth, g).OutOfFuel?
    ensures Same(sc, k, stale + BlockCounters(ss), stale + BlockCounters(ss), ExecBlock(env, ss, st, depth, g),
                 ExecBlock(LowerEnv(env), LowerBlock(ss, k), lo, depth, fuel))
    decreases fuel, ss, 3
  {
    hide Setting, Linked, Exec, SafeStmt;
    g := 0;
    if ss == [] {
    } else if Pair(ss) {
      g := PairThenRestEnds(sc, env, k, stale, ss, st, lo, depth, fuel);
    } else {
      g := StmtEnds(sc, env, k, stale, ss[0], st, lo, depth, fuel);
      var r, q := Exec(env, ss[0], st, depth, g), Exec(LowerEnv(env), LowerStmt(ss[0], k), lo, depth, fuel);
      if r.Normal? {
        var h := BlockEnds(sc, env, k, After(ss[0], stale), ss[1..], r.st, q.st, depth, fuel);
        ExecMore(env, ss[0], st, depth, g, Max(g, h));
        ExecBlockMore(env, ss[1..], r.st, depth, h, Max(g, h));
        g := Max(g, h);
      }
    }
    BlockLowered(sc, env, k, stale, ss, st, lo, depth, g);
    ExecBlockAgree(LowerEnv(env), LowerBlock(ss, k), lo, depth, g, fuel);
  }

  lemma {:induction false} PairThenRestEnds(sc: Scene, env: Env, k: Consts, stale: set<string>, ss: seq<Stmt>,
      st: State, lo: State, depth: nat, fuel: nat) returns (g: nat)
    requires Pair(ss) && Start(sc, env, k, stale, st, lo) && SafeBlock(ss, k.Keys, stale, sc.names)
    requires !ExecBlock(LowerEnv(env), LowerBlock(ss, k), lo, depth, fuel).OutOfFuel?
    ensures !ExecBlock(env, ss, st, depth, g).OutOfFuel?
    decreases fuel, ss, 2
  {
    var c, mid := MatchCounted(ss[0], ss[1]).value, stale + PairCounters(ss[0], ss[1]);
    var copies, rest := Copies(Work(ss[1]), c, 0, k), LowerBlock(ss[2..], k);
    HeadRuns(LowerEnv(env), copies, rest, lo, depth, fuel);
    g := PairEnds(sc, env, k, stale, ss[0], ss[1], st, lo, depth, fuel);
    var r, q := PairRun(env, ss[0], ss[1], st, depth, g), ExecBlock(LowerEnv(env), copies, lo, depth, fuel);
    PairRuns(env, ss, st, depth, g);
    if r.Normal? {
      var h := BlockEnds(sc, env, k, mid, ss[2..], r.st, q.st, depth, fuel);
      ExecLoopMore(env, ss[1], BindName(c.counter, IntV(c.start), st), depth, g, Max(g, h));
      ExecBlockMore(env, ss[2..], r.st, depth, h, Max(g, h));
      g := Max(g, h);
      PairRuns(env, ss, st, depth, g);
    }
  }

  lemma {:induction false} PairEnds(sc: Scene, env: Env, k: Consts, stale: set<string>, init: Stmt, loop: Stmt,
      st: State, lo: State, depth: nat, fuel: nat) returns (g: nat)
    requires MatchCounted(init, loop).Some? && Start(sc, env, k, stale, st, lo)
      && SafePair(init, loop, k.Keys, stale, sc.names)
    requires !ExecBlock(LowerEnv(env), Copies(Work(loop), MatchCounted(init, loop).value, 0, k), lo, depth,
      fuel).OutOfFuel?
    ensures !PairRun(env, init, loop, st, depth, g).OutOfFuel?
    ensures
      var all := stale + PairCounters(init, loop);
      Same(sc, k, all, all, PairRun(env, init, loop, st, depth, g),
           ExecBlock(LowerEnv(env), Copies(Work(loop), MatchCounted(init, loop).value, 0, k), lo, depth, fuel))
    decreases fuel, loop, MaxUnroll + 1
  {
    hide Setting, Linked, ExecBlock, Copies;
    var c, all := MatchCounted(init, loop).value, stale + PairCounters(init, loop);
    LinkedMore(sc, k, stale, all, st, lo);
    BindCounter(sc, k, all, st, lo, c.counter, c.start);
    g := CopiesEnd(sc, env, k, all, loop, c, 0, BindName(c.counter, IntV(c.start), st), lo, depth, fuel);
    PairLowered(sc, env, k, stale, init, loop, st, lo, depth, g);
    ExecBlockAgree(LowerEnv(env), Copies(Work(loop), c, 0, k), lo, depth, g, fuel);
  }

  lemma {:induction false} CopiesEnd(sc: Scene, env: Env, k: Consts, stale: set<string>, loop: Stmt, c: Counted, i: nat,
      st: State, lo: State, depth: nat, fuel: nat) returns (g: nat)
    requires i <= c.trips && Setting(env, sc.names) && Unrolls(sc, k, stale, loop, c)
    requires Linked(sc, k[c.counter := c.start + i], stale, st, lo)
    requires !ExecBlock(LowerEnv(env), Copies(Work(loop), c, i, k), lo, depth, fuel).OutOfFuel?
    ensures !ExecLoop(env, loop, st, depth, g).OutOfFuel?
    decreases fuel, loop, c.trips - i, 3
  {
    hide Setting, Linked, ExecBlock, Copies, LoopBody;
    g := 0;
    TestRuns(sc, env, k, stale, loop, c, c.start + i, st, lo, depth, g);
    if i < c.trips {
      g := IterationEnds(sc, env, k, stale, loop, c, i, st, lo, depth, fuel);
      TestRuns(sc, env, k, stale, loop, c, c.start + i, st, lo, depth, g);
    }
  }

  lemma {:induction false} IterationEnds(sc: Scene, env: Env, k: Consts, stale: set<string>, loop: Stmt, c: Counted,
      i: nat, st: State, lo: State, depth: nat, fuel: nat) returns (g: nat)
    requires i < c.trips && Setting(env, sc.names) && Unrolls(sc, k, stale, loop, c)
    requires Linked(sc, k[c.counter := c.start + i], stale, st, lo)
    requires !ExecBlock(LowerEnv(env), Copies(Work(loop), c, i, k), lo, depth, fuel).OutOfFuel?
    ensures !LoopBody(env, loop, st, depth, g).OutOfFuel?
    decreases fuel, loop, c.trips - i, 2
  {
    hide Setting, Linked, Exec, ExecLoop, LowerStmts;
    var v, work, last := c.start + i, Work(loop), loop.body[|loop.body| - 1];
    var k1 := k[c.counter := v];
    var low := LowerStmts(work, k1);
    assert k1.Keys == k.Keys + {c.counter} && stale + ListCounters(work) == stale;
    HeadRuns(LowerEnv(env), low, Copies(work, c, i + 1, k), lo, depth, fuel);
    g := ListEnds(sc, env, k1, stale, work, st, lo, depth, fuel);
    var r, q := ExecBlock(env, work, st, depth, g), ExecBlock(LowerEnv(env), low, lo, depth, fuel);
    assert loop.body == work + [last];
    BlockNeverBroke(env, work, st, depth, g);
    AppendRuns(env, work, last, st, depth, g);
    if r.Normal? {
      var h := NextEnds(sc, env, k, stale, loop, c, i, r.st, q.st, depth, fuel);
      var m := Max(g, h + 1);
      ExecBlockMore(env, work, st, depth, g, m);
      AppendRuns(env, work, last, st, depth, m);
      NextRuns(sc, env, k, stale, loop, c, i, r.st, q.st, depth, m);
      ExecLoopMore(env, loop, BindName(c.counter, IntV(v + 1), r.st), depth, h, m - 1);
      g := m;
    }
  }

  lemma NextRuns(sc: Scene, env: Env, k: Consts, stale: set<string>, loop: Stmt, c: Counted, i: nat, st: State,
      lo: State, depth: nat, f: nat)
    requires i < c.trips && Setting(env, sc.names) && Unrolls(sc, k, stale, loop, c)
    requires Linked(sc, k[c.counter := c.start + i], stale, st, lo)
    ensures Exec(env, loop.body[|loop.body| - 1], st, depth, f)
      == Normal(BindName(c.counter, IntV(c.start + i + 1), st))
  {
    LoadKnown(sc, k[c.counter := c.start + i], stale, st, lo, c.counter);
    IncrementRuns(env, loop.body[|loop.body| - 1], c.counter, c.start + i, st, depth, f);
  }

  lemma {:induction false} NextEnds(sc: Scene, env: Env, k: Consts, stale: set<string>, loop: Stmt, c: Counted, i: nat,
      st: State, lo: State, depth: nat, fuel: nat) returns (g: nat)
    requires i < c.trips && Setting(env, sc.names) && Unrolls(sc, k, stale, loop, c)
    requires Linked(sc, k[c.counter := c.start + i], stale, st, lo)
    requires !ExecBlock(LowerEnv(env), Copies(Work(loop), c, i + 1, k), lo, depth, fuel).OutOfFuel?
    ensures !ExecLoop(env, loop, BindName(c.counter, IntV(c.start + i + 1), st), depth, g).OutOfFuel?
    decreases fuel, loop, c.trips - i, 1
  {
    hide Blind, FunctionsSafe, Linked, ExecBlock, ExecLoop, Copies;
    var v, k1 := c.start + i, k[c.counter := c.start + i];
    BindCounter(sc, k1, stale, st, lo, c.counter, v + 1);
    assert k1[c.counter := v + 1] == k[c.counter := c.start + (i + 1)];
    g := CopiesEnd(sc, env, k, stale, loop, c, i + 1, BindName(c.counter, IntV(v + 1), st), lo, depth, fuel);
  }

  lemma {:induction false} ListEnds(sc: Scene, env: Env, k: Consts, stale: set<string>, ss: seq<Stmt>, st: State,
      lo: State, depth: nat, fuel: nat)
    returns (g: nat)
    requires Start(sc, env, k, stale, st, lo) && SafeList(ss, k.Keys, stale, sc.names)
    requires !ExecBlock(LowerEnv(env), LowerStmts(ss, k), lo, depth, fuel).OutOfFuel?
    ensures !ExecBlock(env, ss, st, depth, g).OutOfFuel?
    ensures Same(sc, k, stale + ListCounters(ss), stale + ListCounters(ss), ExecBlock(env, ss, st, depth, g),
                 ExecBlock(LowerEnv(env), LowerStmts(ss, k), lo, depth, fuel))
    decreases fuel, ss, 3
  {
    g := 0;
    if ss != [] {
      g := StmtEnds(sc, env, k, stale, ss[0], st, lo, depth, fuel);
      var r, q := Exec(env, ss[0], st, depth, g), Exec(LowerEnv(env), LowerStmt(ss[0], k), lo, depth, fuel);
      if r.Normal? {
        var h := ListEnds(sc, env, k, After(ss[0], stale), ss[1..], r.st, q.st, depth, fuel);
        ExecMore(env, ss[0], st, depth, g, Max(g, h));
        ExecBlockMore(env, ss[1..], r.st, depth, h, Max(g, h));
        g := Max(g, h);
      }
    }
    ListLowered(sc, env, k, stale, ss, st, lo, depth, g);
    ExecBlockAgree(LowerEnv(env), LowerStmts(ss, k), lo, depth, g, fuel);
  }
}
