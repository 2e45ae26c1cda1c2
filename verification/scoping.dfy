/** Which variable an assignment means, what a call does to its caller's, and which way a
    program goes: read off whole statements and calls. */
module Scoping {
  import opened Syntax
  import opened Semantics

  // ---- assignments ----

  function Set(x: string, e: Expr): Stmt {
    Assign([To(x)], false, e)
  }

  /** A frame's own variables. */
  function Locals(st: State): map<string, Value> {
    match st.sc case GlobalScope => map[] case LocalScope(locals) => locals
  }

  /** `v` has been put where an assignment to `x` puts it. At the top level that is a global.
      In a function it is the local of that name; if there is none, the global of that name;
      if there is none, a new local. Nothing else has changed. */
  predicate Placed(x: string, v: Value, st: State, st1: State) {
    && st1.w.heap == st.w.heap && st1.sc.GlobalScope? == st.sc.GlobalScope?
    && (st.sc.GlobalScope? ==> st1.w.globals == st.w.globals[x := v])
    && (st.sc.LocalScope? && x in Locals(st) ==> Locals(st1) == Locals(st)[x := v] && st1.w.globals == st.w.globals)
    && (st.sc.LocalScope? && x !in Locals(st) && x in st.w.globals ==>
          Locals(st1) == Locals(st) && st1.w.globals == st.w.globals[x := v])
    && (st.sc.LocalScope? && x !in Locals(st) && x !in st.w.globals ==>
          Locals(st1) == Locals(st)[x := v] && st1.w.globals == st.w.globals)
  }

  /** An assignment puts the value there, on its own or in a list. */
  lemma AssignmentPlaces(env: Env, x: string, e: Expr, st: State, depth: nat, fuel: nat, v: Value, st1: State)
    requires Eval(env, e, st, depth, fuel) == Val(v, st1)
    ensures var r := Exec(env, Set(x, e), st, depth, fuel); r.Normal? && Placed(x, v, st1, r.st)
    ensures ExecBlock(env, [Set(x, e)], st, depth, fuel) == Exec(env, Set(x, e), st, depth, fuel)
  {
    assert [Set(x, e)][1..] == [];
  }

  /** `x += e` puts the sum there of the value `x` had before `e` ran and that of `e`. */
  lemma AdditionPlaces(env: Env, x: string, e: Expr, st: State, depth: nat, fuel: nat, u: Value, v: Value, st1: State,
      sum: Value)
    requires Eval(env, Ident(x), st, depth, fuel) == Val(u, st) && Eval(env, e, st, depth, fuel) == Val(v, st1)
    requires env.prim(Binary(Add), [u, v], st1.w.heap) == (Ok(sum), st1.w.heap)
    ensures var r := Exec(env, Assign([To(x)], true, e), st, depth, fuel); r.Normal? && Placed(x, sum, st1, r.st)
  {
    assert st1.(w := st1.w.(heap := st1.w.heap)) == st1;
  }

  /** The states a destructuring goes through: target by target from the left, target `i`
      gets element `i`. */
  predicate PlacedAll(ts: seq<Target>, vs: seq<Value>, sts: seq<State>)
    requires |vs| >= |ts| && |sts| == |ts| + 1
  {
    forall i {:trigger ts[i]} | 0 <= i < |ts| ::
      match ts[i] case Discard => sts[i + 1] == sts[i] case To(x) => Placed(x, vs[i], sts[i], sts[i + 1])
  }

  /** Destructuring takes the first elements, as many as there are targets, and faults
      exactly if there are not so many. */
  lemma DestructuringPlaces(env: Env, ts: seq<Target>, e: Expr, st: State, depth: nat, fuel: nat, v: Value, st1: State)
    returns (sts: seq<State>)
    requires Eval(env, e, st, depth, fuel) == Val(v, st1) && |ts| != 1
    ensures
      var r, vs := Exec(env, Assign(ts, false, e), st, depth, fuel), env.elements(v, st1.w.heap);
      if vs.Some? && |vs.value| >= |ts| then
        |sts| == |ts| + 1 && sts[0] == st1 && PlacedAll(ts, vs.value, sts) && r == Normal(sts[|ts|])
      else r.Faulted? && r.exn.kind == Error && r.st == st1
  {
    var vs := env.elements(v, st1.w.heap);
    sts := [];
    if vs.Some? && |vs.value| >= |ts| {
      sts := BindAllPlaces(env, ts, vs.value[..|ts|], st1);
    }
  }

  lemma {:induction false} BindAllPlaces(env: Env, ts: seq<Target>, vs: seq<Value>, st: State) returns (sts: seq<State>)
    requires |ts| == |vs|
    ensures |sts| == |ts| + 1 && sts[0] == st && PlacedAll(ts, vs, sts)
      && BindAll(env, ts, false, vs, st) == Normal(sts[|ts|])
    decreases |ts|
  {
    if ts == [] {
      sts := [st];
    } else {
      var st1 := BindTarget(ts[0], vs[0], st);
      var rest := BindAllPlaces(env, ts[1..], vs[1..], st1);
      sts := [st] + rest;
      forall i | 0 <= i < |ts|
        ensures match ts[i] case Discard => sts[i + 1] == sts[i] case To(x) => Placed(x, vs[i], sts[i], sts[i + 1])
      {
        if i > 0 {
          assert ts[1..][i - 1] == ts[i] && vs[1..][i - 1] == vs[i] && sts[i] == rest[i - 1] && sts[i + 1] == rest[i];
        }
      }
    }
  }

  /** A fault in the body of a monitor is put in its name, then the handler runs from there. */
  lemma TrapPlaces(env: Env, body: seq<Stmt>, x: string, handler: seq<Stmt>, st: State, depth: nat, fuel: nat, exn: Exn,
      st1: State)
    returns (st2: State)
    requires ExecBlock(env, body, st, depth, fuel) == Faulted(exn, st1)
    ensures Placed(x, ExnV(exn), st1, st2)
    ensures Exec(env, Monitor(body, x, handler), st, depth, fuel) == ExecBlock(env, handler, st2, depth, fuel)
  {
    st2 := BindName(x, ExnV(exn), st1);
  }

  // ---- names ----

  /** A name is the local of that name, else the global; else reading it faults. */
  lemma NameRead(env: Env, x: string, st: State, depth: nat, fuel: nat)
    ensures
      var r := Eval(env, Ident(x), st, depth, fuel);
      && (x in Locals(st) ==> r == Val(Locals(st)[x], st))
      && (x !in Locals(st) && x in st.w.globals ==> r == Val(st.w.globals[x], st))
      && (x !in Locals(st) && x !in st.w.globals ==> r.Fault? && r.exn.kind == Error && r.st == st)
  {
  }

  /** What was put in a name is read back, and every other name still reads as before. */
  lemma PlacedReads(env: Env, x: string, v: Value, st: State, st1: State, y: string, depth: nat, fuel: nat)
    requires Placed(x, v, st, st1)
    ensures Eval(env, Ident(x), st1, depth, fuel) == Val(v, st1)
    ensures
      var was, now := Eval(env, Ident(y), st, depth, fuel), Eval(env, Ident(y), st1, depth, fuel);
      y != x ==> (was.Val? ==> now == Val(was.v, st1)) && (was.Fault? ==> now == Fault(was.exn, st1))
  {
    NameRead(env, x, st1, depth, fuel);
    NameRead(env, y, st, depth, fuel);
    NameRead(env, y, st1, depth, fuel);
  }

  // ---- what a frame keeps ----

  ghost predicate ExprKeeps(r: ExprResult, sc: Scope) {
    match r case Val(_, st) => st.sc == sc case Fault(_, st) => st.sc == sc case Spent => true
  }

  ghost predicate ExprsKeep(r: ExprsResult, sc: Scope) {
    match r case Vals(_, st) => st.sc == sc case FaultIn(_, st) => st.sc == sc case SpentIn => true
  }

  /** No expression, whatever it calls, changes a variable of the frame that evaluates it. */
  lemma {:induction false} ExpressionsKeepLocals(env: Env, e: Expr, st: State, depth: nat, fuel: nat)
    ensures ExprKeeps(Eval(env, e, st, depth, fuel), st.sc)
    decreases e, 1
  {
    hide ExecBlock, Callable, LitOutcome, LoadName;
    match e
    case Literal(_) =>
    case Ident(_) =>
    case Apply(_, operands) => ListsKeepLocals(env, operands, st, depth, fuel);
    case Logical(_, left, right) =>
      ExpressionsKeepLocals(env, left, st, depth, fuel);
      var l := Eval(env, left, st, depth, fuel);
      if l.Val? {
        ExpressionsKeepLocals(env, right, l.st, depth, fuel);
      }
    case Call(callee, args) =>
      ExpressionsKeepLocals(env, callee, st, depth, fuel);
      var f := Eval(env, callee, st, depth, fuel);
      if f.Val? {
        ListsKeepLocals(env, args, f.st, depth, fuel);
      }
  }

  lemma {:induction false} ListsKeepLocals(env: Env, es: seq<Expr>, st: State, depth: nat, fuel: nat)
    ensures ExprsKeep(EvalAll(env, es, st, depth, fuel), st.sc)
    decreases es, 0
  {
    hide Eval;
    if es != [] {
      ExpressionsKeepLocals(env, es[0], st, depth, fuel);
      var r := Eval(env, es[0], st, depth, fuel);
      if r.Val? {
        ListsKeepLocals(env, es[1..], r.st, depth, fuel);
      }
    }
  }

  // ---- calls ----

  /** What a call is given: a declared function and as many arguments as it takes, below the
      nesting limit. `st1` is the state once they have been evaluated. */
  predicate Entering(env: Env, callee: Expr, args: seq<Expr>, st: State, depth: nat, fuel: nat, f: string,
      vs: seq<Value>, st1: State)
  {
    var r := Eval(env, callee, st, depth, fuel);
    && r.Val? && r.v == FuncV(f) && EvalAll(env, args, r.st, depth, fuel) == Vals(vs, st1)
    && f in env.funs && |vs| == |env.funs[f].params| && depth < 512 && fuel > 0
  }

  /** The state a call's body starts in: its only variables are the parameters, and each has
      its argument, the first one's if two parameters have one name. */
  predicate Begun(params: seq<string>, vs: seq<Value>, st1: State, start: State)
    requires |params| == |vs|
  {
    && start.w == st1.w && start.sc.LocalScope? && Locals(start).Keys == (set p | p in params)
    && forall i {:trigger params[i]} | 0 <= i < |params| && params[i] !in params[..i] ::
      params[i] in Locals(start) && Locals(start)[params[i]] == vs[i]
  }

  lemma {:induction false} ParametersBound(params: seq<string>, vs: seq<Value>, st1: State)
    requires |params| == |vs|
    ensures Begun(params, vs, st1, State(LocalScope(BindParams(params, vs)), st1.w))
    decreases |params|
  {
    var start := State(LocalScope(BindParams(params, vs)), st1.w);
    if params != [] {
      ParametersBound(params[1..], vs[1..], st1);
      var rest := BindParams(params[1..], vs[1..]);
      forall i | 0 <= i < |params| && params[i] !in params[..i]
        ensures params[i] in Locals(start) && Locals(start)[params[i]] == vs[i]
      {
        if i > 0 {
          assert params[1..][i - 1] == params[i] && params[0] in params[..i];
          assert forall p | p in params[1..][..i - 1] :: p in params[..i];
        }
      }
      assert forall p :: p in params <==> p == params[0] || p in params[1..];
    }
  }

  /** A call runs the body from there. The caller keeps its own variables, sees the globals
      as the body leaves them, and gets what the body returns, null if it returns nothing. */
  lemma CallRuns(env: Env, callee: Expr, args: seq<Expr>, st: State, depth: nat, fuel: nat, f: string, vs: seq<Value>,
      st1: State)
    returns (start: State)
    requires Entering(env, callee, args, st, depth, fuel, f, vs, st1)
    ensures st1.sc == st.sc && Begun(env.funs[f].params, vs, st1, start)
    ensures start == State(LocalScope(BindParams(env.funs[f].params, vs)), st1.w)
    ensures
      var r := Eval(env, Call(callee, args), st, depth, fuel);
      match ExecBlock(env, env.funs[f].body, start, depth + 1, fuel - 1)
      case Normal(st2) => r == Val(NullV, State(st.sc, st2.w))
      case Broke(st2) => r == Val(NullV, State(st.sc, st2.w))
      case Returned(v, st2) => r == Val(v, State(st.sc, st2.w))
      case Faulted(x, st2) => r == Fault(x, State(st.sc, st2.w))
      case OutOfFuel => r == Spent
  {
    hide ExecBlock;
    ExpressionsKeepLocals(env, callee, st, depth, fuel);
    ListsKeepLocals(env, args, Eval(env, callee, st, depth, fuel).st, depth, fuel);
    ParametersBound(env.funs[f].params, vs, st1);
    start := State(LocalScope(BindParams(env.funs[f].params, vs)), st1.w);
    var e := Call(callee, args);
    assert Callable(env, FuncV(f), vs, depth) == Enter(env.funs[f]);
    assert Eval(env, e, st, depth, fuel) == EvalCall(env, e, FuncV(f), Eval(env, callee, st, depth, fuel).st, depth,
      fuel);
  }

  /** Exactly the wrong number of arguments, or a nesting of 512 calls, refuses a call of a
      declared function, before its body runs. */
  lemma CallRefused(env: Env, callee: Expr, args: seq<Expr>, st: State, depth: nat, fuel: nat, f: string,
      vs: seq<Value>, st0: State, st1: State)
    requires Eval(env, callee, st, depth, fuel) == Val(FuncV(f), st0)
      && EvalAll(env, args, st0, depth, fuel) == Vals(vs, st1)
    requires f in env.funs && (|vs| != |env.funs[f].params| || depth >= 512)
    ensures var r := Eval(env, Call(callee, args), st, depth, fuel); r.Fault? && r.exn.kind == Error && r.st == st1
  {
  }

  /** An assignment in a function to a name that is a global and no parameter: the global has
      the value after the call, and the caller, unless it has a variable of that name itself,
      reads it there. */
  lemma GlobalWritten(env: Env, callee: Expr, args: seq<Expr>, st: State, depth: nat, fuel: nat, f: string,
      vs: seq<Value>, st1: State, g: string, e: Expr, start: State, v: Value, st2: State)
    requires Entering(env, callee, args, st, depth, fuel, f, vs, st1) && env.funs[f].body == [Set(g, e)]
    requires start == State(LocalScope(BindParams(env.funs[f].params, vs)), st1.w)
    requires Eval(env, e, start, depth + 1, fuel - 1) == Val(v, st2)
    ensures
      var r := Eval(env, Call(callee, args), st, depth, fuel);
      && r.Val? && r.v == NullV && r.st.sc == st.sc && r.st.w.heap == st2.w.heap
      && (g !in env.funs[f].params && g in st2.w.globals ==>
            r.st.w.globals == st2.w.globals[g := v]
              && (g !in Locals(st) ==> Eval(env, Ident(g), r.st, depth, fuel) == Val(v, r.st)))
      && (g in env.funs[f].params || g !in st2.w.globals ==> r.st.w == st2.w)
  {
    var begun := CallRuns(env, callee, args, st, depth, fuel, f, vs, st1);
    ExpressionsKeepLocals(env, e, start, depth + 1, fuel - 1);
    AssignmentPlaces(env, g, e, start, depth + 1, fuel - 1, v, st2);
    NameRead(env, g, Eval(env, Call(callee, args), st, depth, fuel).st, depth, fuel);
    hide Eval, Exec, ExecBlock, BindParams;
  }
  // ---- branches ----

  /** Null, false, the zeros, the empty string and the character 0; everything else counts as
      true. */
  const Falsy: set<Value> :=
    {NullV, BoolV(false), IntV(0), FloatV(0), FloatV(0x8000_0000_0000_0000), StrV(""), CharV(0)}

  /** An arm of an `if` runs exactly if its condition is none of these, else the chain goes on. */
  lemma BranchTaken(env: Env, cond: Expr, hint: Hint, body: seq<Stmt>, rest: Chain, st: State, depth: nat, fuel: nat,
      v: Value, st1: State)
    requires Eval(env, cond, st, depth, fuel) == Val(v, st1)
    ensures Exec(env, If(Elif(cond, hint, body, rest)), st, depth, fuel)
         == if v in Falsy then ExecChain(env, rest, st1, depth, fuel) else ExecBlock(env, body, st1, depth, fuel)
  {
  }

  /** A loop goes on exactly while its condition is none of these; then everything in it has
      been run once more. */
  lemma LoopTaken(env: Env, cond: Expr, body: seq<Stmt>, st: State, depth: nat, fuel: nat, v: Value, st1: State)
    requires Eval(env, cond, st, depth, fuel) == Val(v, st1)
    ensures
      var r := Exec(env, Loop(Some(cond), body), st, depth, fuel);
      if v in Falsy then r == Normal(st1)
      else
        match ExecBlock(env, body, st1, depth, fuel)
        case Broke(st2) => r == Normal(st2)
        case Normal(st2) => fuel > 0 ==> r == Exec(env, Loop(Some(cond), body), st2, depth, fuel - 1)
        case q => r == q
  {
    hide Eval, ExecBlock;
    var s := Loop(Some(cond), body);
    assert v in Falsy <==> !IsTruthy(v);
    assert Exec(env, s, st, depth, fuel) == ExecLoop(env, s, st, depth, fuel);
    if v !in Falsy {
      assert ExecLoop(env, s, st, depth, fuel) == LoopBody(env, s, st1, depth, fuel);
      match ExecBlock(env, body, st1, depth, fuel)
      case Normal(st2) =>
        if fuel > 0 {
          assert Exec(env, s, st2, depth, fuel - 1) == ExecLoop(env, s, st2, depth, fuel - 1);
        }
      case Broke(_) =>
      case Returned(_, _) =>
      case Faulted(_, _) =>
      case OutOfFuel =>
    }
  }

  /** `&&` stops at one of these, `||` at anything else, with that value. */
  lemma LogicalStops(env: Env, left: Expr, right: Expr, st: State, depth: nat, fuel: nat, v: Value, st1: State)
    requires Eval(env, left, st, depth, fuel) == Val(v, st1)
    ensures Eval(env, Logical(true, left, right), st, depth, fuel)
         == if v in Falsy then Val(v, st1) else Eval(env, right, st1, depth, fuel)
    ensures Eval(env, Logical(false, left, right), st, depth, fuel)
         == if v in Falsy then Eval(env, right, st1, depth, fuel) else Val(v, st1)
  {
  }

  /** A literal means its own value. */
  lemma LiteralMeans(env: Env, st: State, depth: nat, fuel: nat)
    ensures forall i :: Eval(env, Literal(IntLit(i)), st, depth, fuel) == Val(IntV(i), st)
    ensures forall bits :: Eval(env, Literal(FloatLit(bits)), st, depth, fuel) == Val(FloatV(bits), st)
    ensures forall s :: Eval(env, Literal(StrLit(s)), st, depth, fuel) == Val(StrV(s), st)
    ensures forall c :: Eval(env, Literal(CharLit(c)), st, depth, fuel) == Val(CharV(c), st)
    ensures forall b :: Eval(env, Literal(BoolLit(b)), st, depth, fuel) == Val(BoolV(b), st)
    ensures Eval(env, Literal(NullLit), st, depth, fuel) == Val(NullV, st)
    ensures forall e, m :: Eval(env, Literal(EnumLit(e, m)), st, depth, fuel) == Val(EnumV(e, m), st)
    ensures forall f | f in env.funs :: Eval(env, Literal(FuncLit(f)), st, depth, fuel) == Val(FuncV(f), st)
    ensures forall f | f !in env.funs :: Eval(env, Literal(FuncLit(f)), st, depth, fuel).Fault?
  {
  }

  // ---- operands and arms ----

  /** The expressions run one behind the other, from the left. */
  ghost predicate InTurn(env: Env, es: seq<Expr>, vs: seq<Value>, sts: seq<State>, depth: nat, fuel: nat) {
    && |vs| == |es| && |sts| == |es| + 1
    && forall i | 0 <= i < |es| :: Eval(env, es[i], sts[i], depth, fuel) == Val(vs[i], sts[i + 1])
  }

  lemma {:induction false} OperandsInTurn(env: Env, es: seq<Expr>, vs: seq<Value>, sts: seq<State>, depth: nat,
      fuel: nat)
    requires InTurn(env, es, vs, sts, depth, fuel)
    ensures EvalAll(env, es, sts[0], depth, fuel) == Vals(vs, sts[|es|])
    decreases |es|
  {
    hide Eval;
    if es != [] {
      OperandsInTurn(env, es[1..], vs[1..], sts[1..], depth, fuel);
      assert Eval(env, es[0], sts[0], depth, fuel) == Val(vs[0], sts[1]);
      assert vs == [vs[0]] + vs[1..] && sts[1..][|es| - 1] == sts[|es|];
    }
  }

  /** An operation is given its operands' values in their order and the heap they leave, and
      changes nothing but the heap. */
  lemma OperationRuns(env: Env, op: Op, es: seq<Expr>, vs: seq<Value>, sts: seq<State>, depth: nat, fuel: nat)
    requires InTurn(env, es, vs, sts, depth, fuel)
    ensures
      var last := sts[|es|];
      var (outcome, heap) := env.prim(op, vs, last.w.heap);
      var after := State(last.sc, World(last.w.globals, heap));
      Eval(env, Apply(op, es), sts[0], depth, fuel)
      == match outcome case Ok(v) => Val(v, after) case Raised(x) => Fault(x, after)
  {
    hide InTurn, EvalAll;
    OperandsInTurn(env, es, vs, sts, depth, fuel);
  }

  /** Enum members are equal if their names and their types' names are. */
  ghost predicate EnumsCompare(env: Env) {
    forall e, m, e1, m1, heap {:trigger env.prim(Binary(Eq), [EnumV(e, m), EnumV(e1, m1)], heap)} ::
      env.prim(Binary(Eq), [EnumV(e, m), EnumV(e1, m1)], heap) == (Ok(BoolV(e == e1 && m == m1)), heap)
  }

  /** A `match` runs the first arm that names the member, and nothing else; if none does, nothing. */
  lemma ArmTaken(env: Env, scrutinee: Expr, cases: seq<Case>, st: State, depth: nat, fuel: nat, e: string, m: string,
      st1: State, k: nat)
    requires EnumsCompare(env) && Eval(env, scrutinee, st, depth, fuel) == Val(EnumV(e, m), st1) && k <= |cases|
    requires forall i | 0 <= i < k :: !(cases[i].enumName == e && cases[i].member == m)
    requires k < |cases| ==> cases[k].enumName == e && cases[k].member == m
    ensures Exec(env, Match(scrutinee, cases), st, depth, fuel)
      == if k < |cases| then ExecBlock(env, cases[k].body, st1, depth, fuel) else Normal(st1)
  {
    hide Eval, ExecCases, ExecBlock, EnumsCompare;
    FirstArm(env, cases, st1, depth, fuel, e, m, k);
  }

  lemma {:induction false} FirstArm(env: Env, cases: seq<Case>, st: State, depth: nat, fuel: nat, e: string, m: string,
      k: nat)
    requires EnumsCompare(env) && k <= |cases|
    requires forall i | 0 <= i < k :: !(cases[i].enumName == e && cases[i].member == m)
    requires k < |cases| ==> cases[k].enumName == e && cases[k].member == m
    ensures ExecCases(env, EnumV(e, m), cases, st, depth, fuel)
      == if k < |cases| then ExecBlock(env, cases[k].body, st, depth, fuel) else Normal(st)
    decreases |cases|
  {
    hide ExecBlock;
    if cases != [] {
      EnumCompared(env, e, m, cases[0], st);
      if k > 0 {
        FirstArm(env, cases[1..], st, depth, fuel, e, m, k - 1);
      }
    }
  }

  lemma EnumCompared(env: Env, e: string, m: string, c: Case, st: State)
    requires EnumsCompare(env)
    ensures ApplyPrim(env, Binary(Eq), [EnumV(e, m), EnumV(c.enumName, c.member)], st)
      == Val(BoolV(e == c.enumName && m == c.member), st)
  {
  }
}
