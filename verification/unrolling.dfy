/** Unrolling preserves meaning.

    The unrolled program is compared with the program as written. They agree on every
    variable except the counters of unrolled loops, which the unrolled program never
    assigns, so the comparison keeps a set of stale names. */
module Unrolling {
  import opened Bytes
  import opened Syntax
  import opened Semantics
  import opened Lowering
  import opened Breaks
  import opened Values
  import opened Fuel

  // ---- when unrolling is safe ----

  /** Counters of the loops that are unrolled inside a construct. */
  function Counters(s: Stmt): set<string>
    decreases s, 2
  {
    match s
    case Block(body) => BlockCounters(body)
    case If(chain) => ChainCounters(chain)
    case Loop(_, body) => BlockCounters(body)
    case Match(_, cases) => CasesCounters(cases)
    case Monitor(body, _, handler) => BlockCounters(body) + BlockCounters(handler)
    case _ => {}
  }

  function BlockCounters(ss: seq<Stmt>): set<string>
    decreases ss, 1
  {
    if ss == [] then {}
    else if Pair(ss) then PairCounters(ss[0], ss[1]) + BlockCounters(ss[2..])
    else Counters(ss[0]) + BlockCounters(ss[1..])
  }

  function PairCounters(init: Stmt, loop: Stmt): set<string>
    requires MatchCounted(init, loop).Some?
    decreases loop, 1
  {
    {MatchCounted(init, loop).value.counter} + ListCounters(Work(loop))
  }

  function ListCounters(ss: seq<Stmt>): set<string>
    decreases ss, 0
  {
    if ss == [] then {} else Counters(ss[0]) + ListCounters(ss[1..])
  }

  function ChainCounters(ch: Chain): set<string>
    decreases ch, 0
  {
    match ch
    case Else(els) => BlockCounters(els)
    case Elif(_, _, body, rest) => BlockCounters(body) + ChainCounters(rest)
  }

  function CasesCounters(cases: seq<Case>): set<string>
    decreases cases, 0
  {
    if cases == [] then {} else BlockCounters(cases[0].body) + CasesCounters(cases[1..])
  }

  /** `known` are the counters that are constants here, `stale` the names on which the two
      programs may differ. */
  predicate SafeExpr(e: Expr, known: set<string>, stale: set<string>)
    decreases e, 1
  {
    match e
    case Literal(_) => true
    case Ident(name) => name in known || name !in stale
    case Apply(_, operands) => SafeExprs(operands, known, stale)
    case Logical(_, left, right) => SafeExpr(left, known, stale) && SafeExpr(right, known, stale)
    case Call(callee, args) => SafeExpr(callee, known, stale) && SafeExprs(args, known, stale)
  }

  predicate SafeExprs(es: seq<Expr>, known: set<string>, stale: set<string>)
    decreases es, 0
  {
    es == [] || (SafeExpr(es[0], known, stale) && SafeExprs(es[1..], known, stale))
  }

  /** Names a function may not touch at all, and names that may be globals. Function
      code has `local` set: its counters must not be globals. */
  datatype Names = Names(local: bool, hidden: set<string>, globals: set<string>)

  predicate SafeName(name: string, known: set<string>, names: Names) {
    && name !in known
    && (names.local ==> name !in names.hidden)
    && (!names.local ==> name in names.globals)
  }

  predicate SafeTargets(ts: seq<Target>, addAssign: bool, known: set<string>, stale: set<string>, names: Names) {
    forall t | t in ts && t.To? :: SafeName(t.name, known, names) && (addAssign ==> t.name !in stale)
  }

  predicate SafeStmt(s: Stmt, known: set<string>, stale: set<string>, names: Names)
    decreases s, 2
  {
    match s
    case Assign(ts, addAssign, value) => SafeExpr(value, known, stale)
      && SafeTargets(ts, addAssign, known, stale, names)
    case ExprStmt(e) => SafeExpr(e, known, stale)
    case Return(e) => SafeExpr(e, known, stale)
    case Break => true
    case Block(body) => SafeBlock(body, known, stale, names)
    case If(chain) => SafeChain(chain, known, stale, names)
    case Loop(cond, body) =>
      && (cond.Some? ==> SafeExpr(cond.value, known, stale + BlockCounters(body)))
      && SafeBlock(body, known, stale + BlockCounters(body), names)
    case Match(scrutinee, cases) => SafeExpr(scrutinee, known, stale) && SafeCases(cases, known, stale, names)
    case Monitor(body, trap, handler) =>
      && SafeBlock(body, known, stale, names)
      && SafeName(trap, known, names)
      && SafeBlock(handler, known, stale + BlockCounters(body), names)
  }

  /** An assignment makes its target agree again; a counted loop makes its counter stale. */
  function After(s: Stmt, stale: set<string>): set<string> {
    if s.Assign? && |s.targets| == 1 && s.targets[0].To? then stale - {s.targets[0].name}
    else stale + Counters(s)
  }

  predicate SafeBlock(ss: seq<Stmt>, known: set<string>, stale: set<string>, names: Names)
    decreases ss, 1
  {
    if ss == [] then true
    else if Pair(ss) then
      && SafePair(ss[0], ss[1], known, stale, names)
      && SafeBlock(ss[2..], known, stale + PairCounters(ss[0], ss[1]), names)
    else
      SafeStmt(ss[0], known, stale, names) && SafeBlock(ss[1..], known, After(ss[0], stale), names)
  }

  /** The loop test gives the bound the generator computed. Comparisons round large
      integers, so this is a condition on the literals. */
  predicate Exact(c: Counted, op: Op, bound: int) {
    && (forall i {:trigger Ordered(op, i, bound)} | c.start <= i < c.start + c.trips :: Ordered(op, i, bound))
    && !Ordered(op, c.start + c.trips, bound)
  }

  /** The counter is nobody else's, and the body does not assign it. */
  predicate OwnsCounter(init: Stmt, loop: Stmt, known: set<string>, stale: set<string>, names: Names)
    requires MatchCounted(init, loop).Some?
    decreases loop, 1
  {
    var c := MatchCounted(init, loop).value;
    && IsI64(c.start) && IsI64(c.start + c.trips) && IsI64(loop.cond.value.operands[1].lit.i)
    && SafeName(c.counter, known, names)
    && (if names.local then c.counter !in names.globals else c.counter in names.hidden)
    && SafeList(Work(loop), known + {c.counter}, stale + PairCounters(init, loop), names)
  }

  /** The counter is the loop's own, the test counts as the generator did, and the body
      does not leave the loop by `break`. */
  predicate SafePair(init: Stmt, loop: Stmt, known: set<string>, stale: set<string>, names: Names)
    requires MatchCounted(init, loop).Some?
    decreases loop, 2
  {
    && OwnsCounter(init, loop, known, stale, names)
    && Exact(MatchCounted(init, loop).value, loop.cond.value.op, loop.cond.value.operands[1].lit.i)
    && !BlockBreaksOut(Work(loop))
  }

  /** The statements of an unrolled body. */
  predicate SafeList(ss: seq<Stmt>, known: set<string>, stale: set<string>, names: Names)
    decreases ss, 0
  {
    ss == [] || (SafeStmt(ss[0], known, stale, names) && SafeList(ss[1..], known, After(ss[0], stale), names))
  }

  predicate SafeChain(ch: Chain, known: set<string>, stale: set<string>, names: Names)
    decreases ch, 0
  {
    match ch
    case Else(els) => SafeBlock(els, known, stale, names)
    case Elif(cond, _, body, rest) =>
      SafeExpr(cond, known, stale) && SafeBlock(body, known, stale, names) && SafeChain(rest, known, stale, names)
  }

  predicate SafeCases(cases: seq<Case>, known: set<string>, stale: set<string>, names: Names)
    decreases cases, 0
  {
    cases == [] || (SafeBlock(cases[0].body, known, stale, names) && SafeCases(cases[1..], known, stale, names))
  }

  /** Bounds within +-2^53 are compared exactly. */
  lemma SmallBoundsExact(init: Stmt, loop: Stmt)
    requires MatchCounted(init, loop).Some?
    requires var c := MatchCounted(init, loop).value; -Mantissa <= c.start && c.start + c.trips <= Mantissa
    ensures Exact(MatchCounted(init, loop).value, loop.cond.value.op, loop.cond.value.operands[1].lit.i)
  {
    var c, op, bound := MatchCounted(init, loop).value, loop.cond.value.op, loop.cond.value.operands[1].lit.i;
    ToDoubleExact(bound);
    ToDoubleExact(c.start + c.trips);
    forall i | c.start <= i < c.start + c.trips
      ensures Ordered(op, i, bound)
    {
      ToDoubleExact(i);
    }
  }

  /** Rounding keeps the order, so two tests tell: the loop is still on at its last
      iteration and over behind it. */
  lemma ExactEnds(c: Counted, op: Op, bound: int)
    requires c.trips > 0
    ensures Exact(c, op, bound) <==> Ordered(op, c.start + c.trips - 1, bound) && !Ordered(op, c.start + c.trips, bound)
  {
    if Ordered(op, c.start + c.trips - 1, bound) {
      forall i | c.start <= i < c.start + c.trips
        ensures Ordered(op, i, bound)
      {
        ToDoubleOrder(i, c.start + c.trips - 1);
      }
    }
  }

  // ---- the relation ----

  function Without(m: map<string, Value>, names: set<string>): map<string, Value> {
    m - names
  }

  function Only(m: map<string, Value>, names: set<string>): map<string, Value> {
    map n | n in m && n in names :: m[n]
  }

  /** What is fixed while a frame runs: its naming rules and, for a function, the hidden
      globals of either program, which it leaves alone. */
  datatype Scene = Scene(names: Names, hidden: map<string, Value>, hidden1: map<string, Value>)

  /** Globals of a frame: function frames leave the hidden ones alone; package code may
      have stale ones among them. */
  ghost predicate GlobalsLinked(sc: Scene, stale: set<string>, w: World, w1: World) {
    && w.heap == w1.heap && w.globals.Keys <= sc.names.globals && w1.globals.Keys <= sc.names.globals
    && (sc.names.local ==> Without(w.globals, sc.names.hidden) == Without(w1.globals, sc.names.hidden))
    && (sc.names.local ==> Only(w.globals, sc.names.hidden) == sc.hidden)
    && (sc.names.local ==> Only(w1.globals, sc.names.hidden) == sc.hidden1)
    && (!sc.names.local ==> Without(w.globals, stale * sc.names.hidden) == Without(w1.globals, stale * sc.names.hidden))
  }

  /** Names that may be globals are never stale locals. */
  ghost predicate ScopesLinked(sc: Scene, stale: set<string>, s: Scope, s1: Scope) {
    if sc.names.local then
      && s.LocalScope? && s1.LocalScope? && sc.names.hidden <= stale
      && Without(s.locals, stale - sc.names.globals) == Without(s1.locals, stale - sc.names.globals)
    else s.GlobalScope? && s1.GlobalScope?
  }

  /** The source program really has the constants in its variables. */
  ghost predicate Bound(sc: Scene, k: Consts, st: State) {
    if sc.names.local then
      st.sc.LocalScope? && forall n | n in k :: n in st.sc.locals && st.sc.locals[n] == IntV(k[n])
    else
      k.Keys <= sc.names.hidden && forall n | n in k :: n in st.w.globals && st.w.globals[n] == IntV(k[n])
  }

  ghost predicate Linked(sc: Scene, k: Consts, stale: set<string>, st: State, lo: State) {
    GlobalsLinked(sc, stale, st.w, lo.w) && ScopesLinked(sc, stale, st.sc, lo.sc) && Bound(sc, k, st)
  }

  lemma WithoutMore(m: map<string, Value>, m1: map<string, Value>, a: set<string>, b: set<string>)
    requires Without(m, a) == Without(m1, a) && a <= b
    ensures Without(m, b) == Without(m1, b)
  {
    assert Without(m, b) == Without(Without(m, a), b);
    assert Without(m1, b) == Without(Without(m1, a), b);
  }

  /** More stale names ask for less. */
  lemma LinkedMore(sc: Scene, k: Consts, a: set<string>, b: set<string>, st: State, lo: State)
    requires Linked(sc, k, a, st, lo) && a <= b
    ensures Linked(sc, k, b, st, lo)
  {
    if sc.names.local {
      WithoutMore(st.sc.locals, lo.sc.locals, a - sc.names.globals, b - sc.names.globals);
    } else {
      WithoutMore(st.w.globals, lo.w.globals, a * sc.names.hidden, b * sc.names.hidden);
    }
  }

  lemma WithoutAgrees(m: map<string, Value>, m1: map<string, Value>, names: set<string>, n: string)
    requires Without(m, names) == Without(m1, names) && n !in names
    ensures (n in m <==> n in m1) && (n in m ==> m[n] == m1[n])
  {
    assert n in m <==> n in Without(m, names);
    assert n in m1 <==> n in Without(m1, names);
    assert n in m ==> Without(m, names)[n] == m[n];
    assert n in m1 ==> Without(m1, names)[n] == m1[n];
  }

  /** A name that is not stale reads the same. */
  lemma LoadSame(sc: Scene, k: Consts, stale: set<string>, st: State, lo: State, n: string)
    requires Linked(sc, k, stale, st, lo) && n !in stale
    ensures LoadName(n, lo.sc, lo.w) == LoadName(n, st.sc, st.w)
  {
    if sc.names.local {
      WithoutAgrees(st.sc.locals, lo.sc.locals, stale - sc.names.globals, n);
      WithoutAgrees(st.w.globals, lo.w.globals, sc.names.hidden, n);
    } else {
      WithoutAgrees(st.w.globals, lo.w.globals, stale * sc.names.hidden, n);
    }
  }

  lemma LoadKnown(sc: Scene, k: Consts, stale: set<string>, st: State, lo: State, n: string)
    requires Linked(sc, k, stale, st, lo) && n in k
    ensures LoadName(n, st.sc, st.w) == Ok(IntV(k[n]))
  {
  }

  // ---- assignments ----

  lemma WithoutSet(m: map<string, Value>, m1: map<string, Value>, names: set<string>, n: string, v: Value)
    requires Without(m, names) == Without(m1, names)
    ensures Without(m[n := v], names - {n}) == Without(m1[n := v], names - {n})
  {
    var a, b := Without(m[n := v], names - {n}), Without(m1[n := v], names - {n});
    forall x | x in a || x in b
      ensures x in a && x in b && a[x] == b[x]
    {
      if x != n {
        WithoutAgrees(m, m1, names, x);
      }
    }
    assert a.Keys == b.Keys;
  }

  /** Both programs assign the same value: the name agrees from here on. */
  lemma BindSame(sc: Scene, k: Consts, stale: set<string>, st: State, lo: State, n: string, v: Value)
    requires Linked(sc, k, stale, st, lo) && SafeName(n, k.Keys, sc.names)
    ensures Linked(sc, k, stale - {n}, BindName(n, v, st), BindName(n, v, lo))
  {
    if sc.names.local {
      BindSameLocal(sc, k, stale, st, lo, n, v);
    } else {
      assert (stale - {n}) * sc.names.hidden == stale * sc.names.hidden - {n};
      WithoutSet(st.w.globals, lo.w.globals, stale * sc.names.hidden, n, v);
    }
  }

  lemma BindSameLocal(sc: Scene, k: Consts, stale: set<string>, st: State, lo: State, n: string, v: Value)
    requires sc.names.local && Linked(sc, k, stale, st, lo) && SafeName(n, k.Keys, sc.names)
    ensures Linked(sc, k, stale - {n}, BindName(n, v, st), BindName(n, v, lo))
  {
    var off := stale - sc.names.globals;
    assert (stale - {n}) - sc.names.globals == off - {n};
    WithoutAgrees(st.w.globals, lo.w.globals, sc.names.hidden, n);
    WithoutSet(st.sc.locals, lo.sc.locals, off, n, v);
    if n !in off {
      WithoutAgrees(st.sc.locals, lo.sc.locals, off, n);
      assert off - {n} == off;
    }
    if n in st.w.globals {
      WithoutSet(st.w.globals, lo.w.globals, sc.names.hidden, n, v);
      assert sc.names.hidden - {n} == sc.names.hidden;
      assert Only(st.w.globals[n := v], sc.names.hidden) == Only(st.w.globals, sc.names.hidden);
      assert Only(lo.w.globals[n := v], sc.names.hidden) == Only(lo.w.globals, sc.names.hidden);
    }
  }

  lemma BindTargetSame(sc: Scene, k: Consts, stale: set<string>, st: State, lo: State, t: Target, v: Value)
    requires Linked(sc, k, stale, st, lo) && (t.To? ==> SafeName(t.name, k.Keys, sc.names))
    ensures Linked(sc, k, stale, BindTarget(t, v, st), BindTarget(t, v, lo))
  {
    if t.To? {
      BindSame(sc, k, stale, st, lo, t.name, v);
      LinkedMore(sc, k, stale - {t.name}, stale, BindTarget(t, v, st), BindTarget(t, v, lo));
    }
  }

  /** The source sets a counter that is a constant in the unrolled program. */
  lemma BindCounter(sc: Scene, k: Consts, stale: set<string>, st: State, lo: State, n: string, v: int)
    requires Linked(sc, k, stale, st, lo) && n in stale
    requires if sc.names.local then n !in sc.names.globals else n in sc.names.hidden && n in sc.names.globals
    ensures Linked(sc, k[n := v], stale, BindName(n, IntV(v), st), lo)
  {
    if sc.names.local {
      assert Without(st.sc.locals[n := IntV(v)], stale - sc.names.globals)
        == Without(st.sc.locals, stale - sc.names.globals);
    } else {
      assert Without(st.w.globals[n := IntV(v)], stale * sc.names.hidden)
        == Without(st.w.globals, stale * sc.names.hidden);
    }
  }

  lemma BoundLess(sc: Scene, k: Consts, n: string, v: int, stale: set<string>, st: State, lo: State)
    requires Linked(sc, k[n := v], stale, st, lo) && n !in k
    ensures Linked(sc, k, stale, st, lo)
  {
    assert forall x | x in k :: x in k[n := v] && k[n := v][x] == k[x];
  }

  // ---- the two programs ----

  function LowerEnv(env: Env): Env {
    env.(funs := map f | f in env.funs :: LowerFunction(env.funs[f]))
  }

  /** What the host does with one call is the same whatever hidden globals hold, and it
      leaves them alone. */
  ghost predicate BlindAt(env: Env, names: Names, f: Value, vs: seq<Value>, w: World, w1: World) {
    (&& w.heap == w1.heap && w.globals.Keys <= names.globals && w1.globals.Keys <= names.globals
     && Without(w.globals, names.hidden) == Without(w1.globals, names.hidden)) ==>
      var (r, v), (r1, v1) := env.native(f, vs, w), env.native(f, vs, w1);
      && r == r1 && Untouched(names, w, v, w1, v1)
  }

  /** Worlds `v` and `v1` as they can be after a call from `w` and `w1`. */
  ghost predicate Untouched(names: Names, w: World, v: World, w1: World, v1: World) {
    && v.heap == v1.heap && v.globals.Keys <= names.globals && v1.globals.Keys <= names.globals
    && Without(v.globals, names.hidden) == Without(v1.globals, names.hidden)
    && Only(v.globals, names.hidden) == Only(w.globals, names.hidden)
    && Only(v1.globals, names.hidden) == Only(w1.globals, names.hidden)
  }

  ghost predicate Blind(env: Env, names: Names) {
    forall f, vs, w, w1 {:trigger BlindAt(env, names, f, vs, w, w1)} :: BlindAt(env, names, f, vs, w, w1)
  }

  /** Every function is safe to unroll, mentions no hidden global, and keeps its counters
      local. */
  ghost predicate FunctionsSafe(env: Env, names: Names) {
    forall f | f in env.funs :: SafeBlock(env.funs[f].body, {}, names.hidden, names.(local := true))
  }

  ghost predicate Setting(env: Env, names: Names) {
    IntOps(env) && names.hidden <= names.globals && Blind(env, names) && FunctionsSafe(env, names)
  }

  lemma SettingLocal(env: Env, names: Names)
    requires Setting(env, names)
    ensures Setting(env, names.(local := true))
  {
    var inner := names.(local := true);
    forall f, vs, w, w1
      ensures BlindAt(env, inner, f, vs, w, w1)
    {
      assert BlindAt(env, names, f, vs, w, w1);
    }
  }

  // ---- expressions ----

  ghost predicate ExprSame(sc: Scene, k: Consts, stale: set<string>, r: ExprResult, q: ExprResult) {
    match r
    case Val(v, s1) => q.Val? && q.v == v && Linked(sc, k, stale, s1, q.st)
    case Fault(x, s1) => q.Fault? && q.exn == x && Linked(sc, k, stale, s1, q.st)
    case Spent => true
  }

  ghost predicate ExprsSame(sc: Scene, k: Consts, stale: set<string>, r: ExprsResult, q: ExprsResult) {
    match r
    case Vals(vs, s1) => q.Vals? && q.vs == vs && Linked(sc, k, stale, s1, q.st)
    case FaultIn(x, s1) => q.FaultIn? && q.exn == x && Linked(sc, k, stale, s1, q.st)
    case SpentIn => true
  }

  lemma PrimSame(sc: Scene, env: Env, k: Consts, stale: set<string>, op: Op, vs: seq<Value>, st: State, lo: State)
    requires Linked(sc, k, stale, st, lo)
    ensures ExprSame(sc, k, stale, ApplyPrim(env, op, vs, st), ApplyPrim(LowerEnv(env), op, vs, lo))
  {
  }

  lemma {:induction false} ExprLowered(sc: Scene, env: Env, k: Consts, stale: set<string>, e: Expr, st: State,
      lo: State, depth: nat, fuel: nat)
    requires Setting(env, sc.names) && SafeExpr(e, k.Keys, stale) && Linked(sc, k, stale, st, lo)
    ensures ExprSame(sc, k, stale, Eval(env, e, st, depth, fuel), Eval(LowerEnv(env), LowerExpr(e, k), lo, depth, fuel))
    decreases fuel, e, 1
  {
    hide Setting, Linked, EvalAll, SafeExprs, LowerExprs, EvalCall, ApplyPrim;
    match e
    case Literal(_) =>
    case Ident(name) =>
      if name in k {
        LoadKnown(sc, k, stale, st, lo, name);
      } else {
        LoadSame(sc, k, stale, st, lo, name);
      }
    case Apply(op, operands) =>
      ExprsLowered(sc, env, k, stale, operands, st, lo, depth, fuel);
      var r := EvalAll(env, operands, st, depth, fuel);
      if r.Vals? {
        PrimSame(sc, env, k, stale, op, r.vs, r.st,
          EvalAll(LowerEnv(env), LowerExprs(operands, k), lo, depth, fuel).st);
      }
    case Logical(isAnd, left, right) =>
      ExprLowered(sc, env, k, stale, left, st, lo, depth, fuel);
      var r := Eval(env, left, st, depth, fuel);
      if r.Val? && IsTruthy(r.v) == isAnd {
        ExprLowered(sc, env, k, stale, right, r.st, Eval(LowerEnv(env), LowerExpr(left, k), lo, depth, fuel).st, depth,
          fuel);
      }
    case Call(callee, _) =>
      ExprLowered(sc, env, k, stale, callee, st, lo, depth, fuel);
      var r := Eval(env, callee, st, depth, fuel);
      if r.Val? {
        CallLowered(sc, env, k, stale, e, r.v, r.st, Eval(LowerEnv(env), LowerExpr(callee, k), lo, depth, fuel).st,
          depth, fuel);
      }
  }

  lemma {:induction false} ExprsLowered(sc: Scene, env: Env, k: Consts, stale: set<string>, es: seq<Expr>, st: State,
      lo: State, depth: nat, fuel: nat)
    requires Setting(env, sc.names) && SafeExprs(es, k.Keys, stale) && Linked(sc, k, stale, st, lo)
    ensures ExprsSame(sc, k, stale, EvalAll(env, es, st, depth, fuel),
      EvalAll(LowerEnv(env), LowerExprs(es, k), lo, depth, fuel))
    decreases fuel, es, 0
  {
    if es != [] {
      ExprLowered(sc, env, k, stale, es[0], st, lo, depth, fuel);
      var r := Eval(env, es[0], st, depth, fuel);
      if r.Val? {
        ExprsLowered(sc, env, k, stale, es[1..], r.st, Eval(LowerEnv(env), LowerExpr(es[0], k), lo, depth, fuel).st,
          depth, fuel);
      }
    }
  }

  lemma {:induction false} CallLowered(sc: Scene, env: Env, k: Consts, stale: set<string>, e: Expr, f: Value, st: State,
      lo: State, depth: nat, fuel: nat)
    requires e.Call? && Setting(env, sc.names) && SafeExpr(e, k.Keys, stale) && Linked(sc, k, stale, st, lo)
    ensures ExprSame(sc, k, stale, EvalCall(env, e, f, st, depth, fuel),
      EvalCall(LowerEnv(env), LowerExpr(e, k), f, lo, depth, fuel))
    decreases fuel, e, 0
  {
    hide Setting, Linked, EvalAll, NativeCall, ExecBlock;
    ExprsLowered(sc, env, k, stale, e.args, st, lo, depth, fuel);
    var r, q := EvalAll(env, e.args, st, depth, fuel), EvalAll(LowerEnv(env), LowerExprs(e.args, k), lo, depth, fuel);
    if r.Vals? {
      match Callable(env, f, r.vs, depth)
      case Refused(_) =>
      case Outside => NativeSame(sc, env, k, stale, f, r.vs, r.st, q.st);
      case Enter(fn) =>
        if fuel > 0 {
          EnterLowered(sc, env, k, stale, f.func, r.vs, r.st, q.st, depth, fuel);
        }
    }
  }

  /** Worlds that agree before a call of untouched globals agree after it. */
  lemma CallWorlds(sc: Scene, k: Consts, stale: set<string>, st: State, lo: State, w: World, w1: World)
    requires Linked(sc, k, stale, st, lo) && Untouched(sc.names, st.w, w, lo.w, w1)
    ensures Linked(sc, k, stale, st.(w := w), lo.(w := w1))
  {
    var hidden := sc.names.hidden;
    if !sc.names.local {
      var off := stale * hidden;
      var a, b := Without(w.globals, off), Without(w1.globals, off);
      forall n | n in a || n in b
        ensures n in a && n in b && a[n] == b[n]
      {
        if n in hidden {
          OnlyAgrees(w.globals, st.w.globals, hidden, n);
          OnlyAgrees(w1.globals, lo.w.globals, hidden, n);
          WithoutAgrees(st.w.globals, lo.w.globals, off, n);
        } else {
          WithoutAgrees(w.globals, w1.globals, hidden, n);
        }
      }
      assert a.Keys == b.Keys;
      forall n | n in k
        ensures n in w.globals && w.globals[n] == IntV(k[n])
      {
        OnlyAgrees(w.globals, st.w.globals, hidden, n);
      }
    }
  }

  lemma OnlyAgrees(m: map<string, Value>, m1: map<string, Value>, names: set<string>, n: string)
    requires Only(m, names) == Only(m1, names) && n in names
    ensures (n in m <==> n in m1) && (n in m ==> m[n] == m1[n])
  {
    assert n in m <==> n in Only(m, names);
    assert n in m1 <==> n in Only(m1, names);
    assert n in m ==> Only(m, names)[n] == m[n];
    assert n in m1 ==> Only(m1, names)[n] == m1[n];
  }

  /** Agreement on everything but stale globals is agreement on everything not hidden. */
  lemma HiddenAgree(sc: Scene, k: Consts, stale: set<string>, st: State, lo: State)
    requires Linked(sc, k, stale, st, lo)
    ensures Without(st.w.globals, sc.names.hidden) == Without(lo.w.globals, sc.names.hidden)
  {
    if !sc.names.local {
      WithoutMore(st.w.globals, lo.w.globals, stale * sc.names.hidden, sc.names.hidden);
    }
  }

  lemma NativeSame(sc: Scene, env: Env, k: Consts, stale: set<string>, f: Value, vs: seq<Value>, st: State, lo: State)
    requires Setting(env, sc.names) && Linked(sc, k, stale, st, lo)
    ensures ExprSame(sc, k, stale, NativeCall(env, f, vs, st), NativeCall(LowerEnv(env), f, vs, lo))
  {
    assert BlindAt(env, sc.names, f, vs, st.w, lo.w);
    HiddenAgree(sc, k, stale, st, lo);
    CallWorlds(sc, k, stale, st, lo, env.native(f, vs, st.w).1, env.native(f, vs, lo.w).1);
  }

  function CallOf(env: Env, fn: Function, vs: seq<Value>, st: State, depth: nat, fuel: nat): ExprResult
    requires |vs| == |fn.params| && fuel > 0
  {
    BodyResult(ExecBlock(env, fn.body, State(LocalScope(BindParams(fn.params, vs)), st.w), depth + 1, fuel - 1), st)
  }

  lemma {:induction false} EnterLowered(sc: Scene, env: Env, k: Consts, stale: set<string>, f: string, vs: seq<Value>,
      st: State, lo: State, depth: nat, fuel: nat)
    requires fuel > 0 && f in env.funs && |vs| == |env.funs[f].params| && Setting(env, sc.names)
      && Linked(sc, k, stale, st, lo)
    ensures ExprSame(sc, k, stale, CallOf(env, env.funs[f], vs, st, depth, fuel),
                     CallOf(LowerEnv(env), LowerFunction(env.funs[f]), vs, lo, depth, fuel))
    decreases fuel - 1, env.funs[f].body, 4
  {
    var fn, hidden := env.funs[f], sc.names.hidden;
    var inner := Scene(sc.names.(local := true), Only(st.w.globals, hidden), Only(lo.w.globals, hidden));
    var scope := LocalScope(BindParams(fn.params, vs));
    SettingLocal(env, sc.names);
    HiddenAgree(sc, k, stale, st, lo);
    var none: Consts := map[];
    assert none.Keys == {};
    assert SafeBlock(fn.body, {}, hidden, inner.names);
    assert Linked(inner, none, hidden, State(scope, st.w), State(scope, lo.w));
    BlockLowered(inner, env, none, hidden, fn.body, State(scope, st.w), State(scope, lo.w), depth + 1, fuel - 1);
    var r := ExecBlock(env, fn.body, State(scope, st.w), depth + 1, fuel - 1);
    if !r.OutOfFuel? {
      var q := ExecBlock(LowerEnv(env), LowerBlock(fn.body, map[]), State(scope, lo.w), depth + 1, fuel - 1);
      CallWorlds(sc, k, stale, st, lo, r.st.w, q.st.w);
    }
  }

  // ---- statements ----

  /** The outcomes match; `after` are the stale names of a normal end, `any` of any other. */
  ghost predicate Same(sc: Scene, k: Consts, after: set<string>, any: set<string>, r: StmtResult, q: StmtResult) {
    match r
    case Normal(s1) => q.Normal? && Linked(sc, k, after, s1, q.st)
    case Broke(s1) => q.Broke? && Linked(sc, k, any, s1, q.st)
    case Returned(v, s1) => q.Returned? && q.v == v && Linked(sc, k, any, s1, q.st)
    case Faulted(x, s1) => q.Faulted? && q.exn == x && Linked(sc, k, any, s1, q.st)
    case OutOfFuel => true
  }

  lemma SameMore(sc: Scene, k: Consts, a: set<string>, a1: set<string>, b: set<string>, b1: set<string>, r: StmtResult,
      q: StmtResult)
    requires Same(sc, k, a, b, r, q) && a <= a1 && b <= b1
    ensures Same(sc, k, a1, b1, r, q)
  {
    match r
    case Normal(s1) => LinkedMore(sc, k, a, a1, s1, q.st);
    case OutOfFuel =>
    case _ => LinkedMore(sc, k, b, b1, r.st, q.st);
  }

  lemma AddToSame(sc: Scene, env: Env, k: Consts, stale: set<string>, n: string, v: Value, st: State, lo: State)
    requires Linked(sc, k, stale, st, lo) && SafeName(n, k.Keys, sc.names) && n !in stale
    ensures Same(sc, k, stale, stale, AddTo(env, n, v, st), AddTo(LowerEnv(env), n, v, lo))
  {
    LoadSame(sc, k, stale, st, lo, n);
    var old_ := LoadName(n, st.sc, st.w);
    if old_.Ok? {
      PrimSame(sc, env, k, stale, Binary(Add), [old_.value, v], st, lo);
      var r, q := ApplyPrim(env, Binary(Add), [old_.value, v], st),
        ApplyPrim(LowerEnv(env), Binary(Add), [old_.value, v], lo);
      if r.Val? {
        BindTargetSame(sc, k, stale, r.st, q.st, To(n), r.v);
      }
    }
  }

  lemma {:induction false} BindAllSame(sc: Scene, env: Env, k: Consts, stale: set<string>, ts: seq<Target>,
      addAssign: bool, vs: seq<Value>, st: State, lo: State)
    requires |ts| == |vs| && Linked(sc, k, stale, st, lo) && SafeTargets(ts, addAssign, k.Keys, stale, sc.names)
    ensures Same(sc, k, stale, stale, BindAll(env, ts, addAssign, vs, st),
      BindAll(LowerEnv(env), ts, addAssign, vs, lo))
    decreases |ts|
  {
    if ts != [] {
      if addAssign && ts[0].To? {
        AddToSame(sc, env, k, stale, ts[0].name, vs[0], st, lo);
        var r, q := AddTo(env, ts[0].name, vs[0], st), AddTo(LowerEnv(env), ts[0].name, vs[0], lo);
        if r.Normal? {
          BindAllSame(sc, env, k, stale, ts[1..], addAssign, vs[1..], r.st, q.st);
        }
      } else {
        BindTargetSame(sc, k, stale, st, lo, ts[0], vs[0]);
        BindAllSame(sc, env, k, stale, ts[1..], addAssign, vs[1..], BindTarget(ts[0], vs[0], st),
          BindTarget(ts[0], vs[0], lo));
      }
    }
  }

  lemma {:induction false} AssignLowered(sc: Scene, env: Env, k: Consts, stale: set<string>, s: Stmt, st: State,
      lo: State, depth: nat, fuel: nat)
    requires s.Assign? && Setting(env, sc.names) && SafeStmt(s, k.Keys, stale, sc.names) && Linked(sc, k, stale, st, lo)
    ensures Same(sc, k, After(s, stale), stale, ExecAssign(env, s, st, depth, fuel),
                 ExecAssign(LowerEnv(env), LowerStmt(s, k), lo, depth, fuel))
    decreases fuel, s, 0
  {
    ExprLowered(sc, env, k, stale, s.value, st, lo, depth, fuel);
    var r, q := Eval(env, s.value, st, depth, fuel), Eval(LowerEnv(env), LowerExpr(s.value, k), lo, depth, fuel);
    if s.addAssign && |s.targets| == 1 && s.targets[0].To? {
      LoadSame(sc, k, stale, st, lo, s.targets[0].name);
      var old_ := LoadName(s.targets[0].name, st.sc, st.w);
      if old_.Ok? {
        AddResultSame(sc, env, k, stale, s, old_.value, r, q);
      }
    } else if r.Val? {
      BindValueSame(sc, env, k, stale, s, r.v, r.st, q.st);
    }
  }

  lemma AddResultSame(sc: Scene, env: Env, k: Consts, stale: set<string>, s: Stmt, old_: Value, r: ExprResult,
      q: ExprResult)
    requires s.Assign? && s.addAssign && |s.targets| == 1 && s.targets[0].To?
      && SafeName(s.targets[0].name, k.Keys, sc.names)
    requires ExprSame(sc, k, stale, r, q)
    ensures Same(sc, k, After(s, stale), stale, AddResult(env, s, old_, r),
      AddResult(LowerEnv(env), LowerStmt(s, k), old_, q))
  {
    if r.Val? {
      PrimSame(sc, env, k, stale, Binary(Add), [old_, r.v], r.st, q.st);
      var p, p1 := ApplyPrim(env, Binary(Add), [old_, r.v], r.st),
        ApplyPrim(LowerEnv(env), Binary(Add), [old_, r.v], q.st);
      if p.Val? {
        BindSame(sc, k, stale, p.st, p1.st, s.targets[0].name, p.v);
      }
    }
  }

  lemma BindValueSame(sc: Scene, env: Env, k: Consts, stale: set<string>, s: Stmt, v: Value, st: State, lo: State)
    requires s.Assign? && Linked(sc, k, stale, st, lo) && SafeTargets(s.targets, s.addAssign, k.Keys, stale, sc.names)
    ensures Same(sc, k, After(s, stale), stale, BindValue(env, s, v, st),
      BindValue(LowerEnv(env), LowerStmt(s, k), v, lo))
  {
    hide BindAll, LoadName, AddTo, ScopesLinked, Bound;
    if |s.targets| == 1 {
      if s.targets[0].To? {
        assert s.targets[0] in s.targets;
        BindSame(sc, k, stale, st, lo, s.targets[0].name, v);
      } else {
        assert stale + {} == stale;
      }
    } else {
      assert stale + {} == stale;
      var vs := Unpacked(env, v, |s.targets|, st.w.heap);
      if vs.Some? {
        BindAllSame(sc, env, k, stale, s.targets, s.addAssign, vs.value, st, lo);
      }
    }
  }

  lemma {:induction false} StmtLowered(sc: Scene, env: Env, k: Consts, stale: set<string>, s: Stmt, st: State,
      lo: State, depth: nat, fuel: nat)
    requires Setting(env, sc.names) && SafeStmt(s, k.Keys, stale, sc.names) && Linked(sc, k, stale, st, lo)
    ensures Same(sc, k, After(s, stale), stale + Counters(s), Exec(env, s, st, depth, fuel),
                 Exec(LowerEnv(env), LowerStmt(s, k), lo, depth, fuel))
    decreases fuel, s, 2
  {
    hide Setting, Linked, ExecBlock, ExecChain, ExecLoop, ExecCases, LowerBlock, LowerChain, LowerCases;
    assert stale + {} == stale;
    match s
    case Assign(_, _, _) => AssignLowered(sc, env, k, stale, s, st, lo, depth, fuel);
    case ExprStmt(e) => ExprLowered(sc, env, k, stale, e, st, lo, depth, fuel);
    case Return(e) => ExprLowered(sc, env, k, stale, e, st, lo, depth, fuel);
    case Break =>
    case Block(body) => BlockLowered(sc, env, k, stale, body, st, lo, depth, fuel);
    case If(chain) => ChainLowered(sc, env, k, stale, chain, st, lo, depth, fuel);
    case Loop(_, body) =>
      LinkedMore(sc, k, stale, stale + BlockCounters(body), st, lo);
      LoopLowered(sc, env, k, stale + BlockCounters(body), s, st, lo, depth, fuel);
    case Match(_, _) => MatchLowered(sc, env, k, stale, s, st, lo, depth, fuel);
    case Monitor(_, _, _) => MonitorLowered(sc, env, k, stale, s, st, lo, depth, fuel);
  }

  lemma {:induction false} MatchLowered(sc: Scene, env: Env, k: Consts, stale: set<string>, s: Stmt, st: State,
      lo: State, depth: nat, fuel: nat)
    requires s.Match? && Setting(env, sc.names) && SafeStmt(s, k.Keys, stale, sc.names) && Linked(sc, k, stale, st, lo)
    ensures Same(sc, k, stale + Counters(s), stale + Counters(s), Exec(env, s, st, depth, fuel),
                 Exec(LowerEnv(env), LowerStmt(s, k), lo, depth, fuel))
    decreases fuel, s, 1
  {
    ExprLowered(sc, env, k, stale, s.scrutinee, st, lo, depth, fuel);
    var r, q := Eval(env, s.scrutinee, st, depth, fuel),
      Eval(LowerEnv(env), LowerExpr(s.scrutinee, k), lo, depth, fuel);
    if r.Val? {
      CasesLowered(sc, env, k, stale, r.v, s.cases, r.st, q.st, depth, fuel);
    } else if r.Fault? {
      LinkedMore(sc, k, stale, stale + Counters(s), r.st, q.st);
    }
  }

  lemma {:induction false} MonitorLowered(sc: Scene, env: Env, k: Consts, stale: set<string>, s: Stmt, st: State,
      lo: State, depth: nat, fuel: nat)
    requires s.Monitor? && Setting(env, sc.names) && SafeStmt(s, k.Keys, stale, sc.names)
      && Linked(sc, k, stale, st, lo)
    ensures Same(sc, k, stale + Counters(s), stale + Counters(s), Exec(env, s, st, depth, fuel),
                 Exec(LowerEnv(env), LowerStmt(s, k), lo, depth, fuel))
    decreases fuel, s, 1
  {
    hide Setting, Linked, ExecBlock, SafeBlock, LowerBlock;
    var mid, all := stale + BlockCounters(s.body), stale + Counters(s);
    BlockLowered(sc, env, k, stale, s.body, st, lo, depth, fuel);
    var r, q := ExecBlock(env, s.body, st, depth, fuel),
      ExecBlock(LowerEnv(env), LowerBlock(s.body, k), lo, depth, fuel);
    if r.Faulted? {
      BindTargetSame(sc, k, mid, r.st, q.st, To(s.trap), ExnV(r.exn));
      var st1, lo1 := BindName(s.trap, ExnV(r.exn), r.st), BindName(s.trap, ExnV(r.exn), q.st);
      BlockLowered(sc, env, k, mid, s.handler, st1, lo1, depth, fuel);
      assert mid + BlockCounters(s.handler) == all;
    } else {
      SameMore(sc, k, mid, all, mid, all, r, q);
    }
  }

  lemma {:induction false} ChainLowered(sc: Scene, env: Env, k: Consts, stale: set<string>, ch: Chain, st: State,
      lo: State, depth: nat, fuel: nat)
    requires Setting(env, sc.names) && SafeChain(ch, k.Keys, stale, sc.names) && Linked(sc, k, stale, st, lo)
    ensures Same(sc, k, stale + ChainCounters(ch), stale + ChainCounters(ch), ExecChain(env, ch, st, depth, fuel),
                 ExecChain(LowerEnv(env), LowerChain(ch, k), lo, depth, fuel))
    decreases fuel, ch, 1
  {
    match ch
    case Else(els) => BlockLowered(sc, env, k, stale, els, st, lo, depth, fuel);
    case Elif(cond, _, body, rest) =>
      var all, a, b := stale + ChainCounters(ch), stale + BlockCounters(body), stale + ChainCounters(rest);
      ExprLowered(sc, env, k, stale, cond, st, lo, depth, fuel);
      var r, q := Eval(env, cond, st, depth, fuel), Eval(LowerEnv(env), LowerExpr(cond, k), lo, depth, fuel);
      if r.Fault? {
        LinkedMore(sc, k, stale, all, r.st, q.st);
      } else if r.Val? && IsTruthy(r.v) {
        BlockLowered(sc, env, k, stale, body, r.st, q.st, depth, fuel);
        SameMore(sc, k, a, all, a, all, ExecBlock(env, body, r.st, depth, fuel),
          ExecBlock(LowerEnv(env), LowerBlock(body, k), q.st, depth, fuel));
      } else if r.Val? {
        ChainLowered(sc, env, k, stale, rest, r.st, q.st, depth, fuel);
        SameMore(sc, k, b, all, b, all, ExecChain(env, rest, r.st, depth, fuel),
          ExecChain(LowerEnv(env), LowerChain(rest, k), q.st, depth, fuel));
      }
  }

  lemma {:induction false} CasesLowered(sc: Scene, env: Env, k: Consts, stale: set<string>, v: Value, cases: seq<Case>,
      st: State, lo: State, depth: nat, fuel: nat)
    requires Setting(env, sc.names) && SafeCases(cases, k.Keys, stale, sc.names) && Linked(sc, k, stale, st, lo)
    ensures Same(sc, k, stale + CasesCounters(cases), stale + CasesCounters(cases),
      ExecCases(env, v, cases, st, depth, fuel),
                 ExecCases(LowerEnv(env), v, LowerCases(cases, k), lo, depth, fuel))
    decreases fuel, cases, 1
  {
    var all := stale + CasesCounters(cases);
    if cases == [] {
      assert all == stale;
    } else {
      var a, b := stale + BlockCounters(cases[0].body), stale + CasesCounters(cases[1..]);
      var member := EnumV(cases[0].enumName, cases[0].member);
      PrimSame(sc, env, k, stale, Binary(Eq), [v, member], st, lo);
      var r, q := ApplyPrim(env, Binary(Eq), [v, member], st), ApplyPrim(LowerEnv(env), Binary(Eq), [v, member], lo);
      if r.Fault? {
        LinkedMore(sc, k, stale, all, r.st, q.st);
      } else if IsTruthy(r.v) {
        BlockLowered(sc, env, k, stale, cases[0].body, r.st, q.st, depth, fuel);
        SameMore(sc, k, a, all, a, all, ExecBlock(env, cases[0].body, r.st, depth, fuel),
                 ExecBlock(LowerEnv(env), LowerBlock(cases[0].body, k), q.st, depth, fuel));
      } else {
        CasesLowered(sc, env, k, stale, v, cases[1..], r.st, q.st, depth, fuel);
        SameMore(sc, k, b, all, b, all, ExecCases(env, v, cases[1..], r.st, depth, fuel),
                 ExecCases(LowerEnv(env), v, LowerCases(cases[1..], k), q.st, depth, fuel));
      }
    }
  }

  /** A loop that is not unrolled; `stale` already has the counters of its body. */
  lemma {:induction false} LoopLowered(sc: Scene, env: Env, k: Consts, stale: set<string>, s: Stmt, st: State,
      lo: State, depth: nat, fuel: nat)
    requires s.Loop? && Setting(env, sc.names) && Linked(sc, k, stale, st, lo) && BlockCounters(s.body) <= stale
    requires (s.cond.Some? ==> SafeExpr(s.cond.value, k.Keys, stale)) && SafeBlock(s.body, k.Keys, stale, sc.names)
    ensures Same(sc, k, stale, stale, ExecLoop(env, s, st, depth, fuel),
      ExecLoop(LowerEnv(env), LowerStmt(s, k), lo, depth, fuel))
    decreases fuel, s, 1
  {
    hide Setting, Linked, LoopBody, Eval, LowerBlock;
    if s.cond.Some? {
      ExprLowered(sc, env, k, stale, s.cond.value, st, lo, depth, fuel);
      var r, q := Eval(env, s.cond.value, st, depth, fuel),
        Eval(LowerEnv(env), LowerExpr(s.cond.value, k), lo, depth, fuel);
      if r.Val? && IsTruthy(r.v) {
        LoopBodyLowered(sc, env, k, stale, s, r.st, q.st, depth, fuel);
      }
    } else {
      LoopBodyLowered(sc, env, k, stale, s, st, lo, depth, fuel);
    }
  }

  lemma {:induction false} LoopBodyLowered(sc: Scene, env: Env, k: Consts, stale: set<string>, s: Stmt, st: State,
      lo: State, depth: nat, fuel: nat)
    requires s.Loop? && Setting(env, sc.names) && Linked(sc, k, stale, st, lo) && BlockCounters(s.body) <= stale
    requires (s.cond.Some? ==> SafeExpr(s.cond.value, k.Keys, stale)) && SafeBlock(s.body, k.Keys, stale, sc.names)
    ensures Same(sc, k, stale, stale, LoopBody(env, s, st, depth, fuel),
      LoopBody(LowerEnv(env), LowerStmt(s, k), lo, depth, fuel))
    decreases fuel, s, 0
  {
    BlockLowered(sc, env, k, stale, s.body, st, lo, depth, fuel);
    assert stale + BlockCounters(s.body) == stale;
    var r, q := ExecBlock(env, s.body, st, depth, fuel),
      ExecBlock(LowerEnv(env), LowerBlock(s.body, k), lo, depth, fuel);
    if r.Normal? && fuel > 0 {
      LoopLowered(sc, env, k, stale, s, r.st, q.st, depth, fuel - 1);
    }
  }

  lemma {:induction false} BlockLowered(sc: Scene, env: Env, k: Consts, stale: set<string>, ss: seq<Stmt>, st: State,
      lo: State, depth: nat, fuel: nat)
    requires Setting(env, sc.names) && SafeBlock(ss, k.Keys, stale, sc.names) && Linked(sc, k, stale, st, lo)
    ensures Same(sc, k, stale + BlockCounters(ss), stale + BlockCounters(ss), ExecBlock(env, ss, st, depth, fuel),
                 ExecBlock(LowerEnv(env), LowerBlock(ss, k), lo, depth, fuel))
    decreases fuel, ss, 3
  {
    if ss == [] {
      assert stale + {} == stale;
    } else if Pair(ss) {
      PairThenRest(sc, env, k, stale, ss, st, lo, depth, fuel);
    } else {
      var all := stale + BlockCounters(ss);
      StmtLowered(sc, env, k, stale, ss[0], st, lo, depth, fuel);
      var r, q := Exec(env, ss[0], st, depth, fuel), Exec(LowerEnv(env), LowerStmt(ss[0], k), lo, depth, fuel);
      OneMore(ss[0], ss, stale);
      if r.Normal? {
        var mid := After(ss[0], stale);
        BlockLowered(sc, env, k, mid, ss[1..], r.st, q.st, depth, fuel);
        SameMore(sc, k, mid + BlockCounters(ss[1..]), all, mid + BlockCounters(ss[1..]), all,
                 ExecBlock(env, ss[1..], r.st, depth, fuel),
                   ExecBlock(LowerEnv(env), LowerBlock(ss[1..], k), q.st, depth, fuel));
      } else {
        SameMore(sc, k, After(ss[0], stale), all, stale + Counters(ss[0]), all, r, q);
      }
    }
  }

  lemma OneMore(s: Stmt, ss: seq<Stmt>, stale: set<string>)
    requires ss != [] && s == ss[0] && !Pair(ss)
    ensures After(s, stale) + BlockCounters(ss[1..]) <= stale + BlockCounters(ss)
    ensures stale + Counters(s) <= stale + BlockCounters(ss) && After(s, stale) <= stale + BlockCounters(ss)
  {
  }

  // ---- counted loops ----

  /** A counted loop in the source: the counter is set and the loop runs. */
  function PairRun(env: Env, init: Stmt, loop: Stmt, st: State, depth: nat, fuel: nat): StmtResult
    requires MatchCounted(init, loop).Some?
  {
    var c := MatchCounted(init, loop).value;
    ExecLoop(env, loop, BindName(c.counter, IntV(c.start), st), depth, fuel)
  }

  lemma PairRuns(env: Env, ss: seq<Stmt>, st: State, depth: nat, fuel: nat)
    requires Pair(ss)
    ensures ExecBlock(env, ss, st, depth, fuel)
         == match PairRun(env, ss[0], ss[1], st, depth, fuel)
            case Normal(st1) => ExecBlock(env, ss[2..], st1, depth, fuel)
            case r => r
  {
    var c := MatchCounted(ss[0], ss[1]).value;
    assert Eval(env, ss[0].value, st, depth, fuel) == Val(IntV(c.start), st);
    assert Exec(env, ss[0], st, depth, fuel) == Normal(BindName(c.counter, IntV(c.start), st));
    var tail, st0 := ss[1..], BindName(c.counter, IntV(c.start), st);
    assert tail[0] == ss[1] && tail[1..] == ss[2..];
    assert Exec(env, tail[0], st0, depth, fuel) == PairRun(env, ss[0], ss[1], st, depth, fuel);
    assert ExecBlock(env, ss, st, depth, fuel) == ExecBlock(env, tail, st0, depth, fuel);
  }

  lemma {:induction false} PairThenRest(sc: Scene, env: Env, k: Consts, stale: set<string>, ss: seq<Stmt>, st: State,
      lo: State, depth: nat, fuel: nat)
    requires Pair(ss) && Setting(env, sc.names) && SafeBlock(ss, k.Keys, stale, sc.names)
      && Linked(sc, k, stale, st, lo)
    ensures Same(sc, k, stale + BlockCounters(ss), stale + BlockCounters(ss), ExecBlock(env, ss, st, depth, fuel),
                 ExecBlock(LowerEnv(env), LowerBlock(ss, k), lo, depth, fuel))
    decreases fuel, ss, 2
  {
    var c, all, mid := MatchCounted(ss[0], ss[1]).value, stale + BlockCounters(ss), stale + PairCounters(ss[0], ss[1]);
    var copies, rest := Copies(Work(ss[1]), c, 0, k), LowerBlock(ss[2..], k);
    PairLowered(sc, env, k, stale, ss[0], ss[1], st, lo, depth, fuel);
    PairRuns(env, ss, st, depth, fuel);
    HeadRuns(LowerEnv(env), copies, rest, lo, depth, fuel);
    var r, q := PairRun(env, ss[0], ss[1], st, depth, fuel), ExecBlock(LowerEnv(env), copies, lo, depth, fuel);
    if r.Normal? {
      BlockLowered(sc, env, k, mid, ss[2..], r.st, q.st, depth, fuel);
      assert mid + BlockCounters(ss[2..]) == all;
    } else {
      SameMore(sc, k, mid, all, mid, all, r, q);
    }
  }

  /** A block in front of other statements. */
  lemma HeadRuns(env: Env, body: seq<Stmt>, rest: seq<Stmt>, st: State, depth: nat, fuel: nat)
    ensures ExecBlock(env, [Block(body)] + rest, st, depth, fuel)
         == match ExecBlock(env, body, st, depth, fuel)
            case Normal(st1) => ExecBlock(env, rest, st1, depth, fuel)
            case r => r
  {
    assert ([Block(body)] + rest)[1..] == rest;
    assert Exec(env, Block(body), st, depth, fuel) == ExecBlock(env, body, st, depth, fuel);
  }

  lemma {:induction false} PairLowered(sc: Scene, env: Env, k: Consts, stale: set<string>, init: Stmt, loop: Stmt,
      st: State, lo: State, depth: nat, fuel: nat)
    requires MatchCounted(init, loop).Some? && Setting(env, sc.names)
    requires SafePair(init, loop, k.Keys, stale, sc.names) && Linked(sc, k, stale, st, lo)
    ensures
      var all := stale + PairCounters(init, loop);
      Same(sc, k, all, all, PairRun(env, init, loop, st, depth, fuel),
           ExecBlock(LowerEnv(env), Copies(Work(loop), MatchCounted(init, loop).value, 0, k), lo, depth, fuel))
    decreases fuel, loop, 4
  {
    hide Setting, Linked, ExecBlock, Copies, ExecLoop;
    var c, all := MatchCounted(init, loop).value, stale + PairCounters(init, loop);
    LinkedMore(sc, k, stale, all, st, lo);
    BindCounter(sc, k, all, st, lo, c.counter, c.start);
    CopiesLowered(sc, env, k, all, loop, c, 0, BindName(c.counter, IntV(c.start), st), lo, depth, fuel, fuel);
  }

  /** What is known of a counted loop whose counter is its own. */
  ghost predicate Counting(sc: Scene, k: Consts, stale: set<string>, loop: Stmt, c: Counted) {
    && loop.Loop? && loop.cond.Some? && IsBound(loop.cond.value, c.counter) && loop.body != []
    && IsIncrement(loop.body[|loop.body| - 1], c.counter)
    && IsI64(c.start) && IsI64(c.start + c.trips) && IsI64(loop.cond.value.operands[1].lit.i)
    && c.counter !in k && c.counter in stale && ListCounters(Work(loop)) <= stale
    && (if sc.names.local then c.counter !in sc.names.globals
      else c.counter in sc.names.hidden && c.counter in sc.names.globals)
    && SafeList(Work(loop), k.Keys + {c.counter}, stale, sc.names)
  }

  /** What is known of a loop that is being unrolled. */
  ghost predicate Unrolls(sc: Scene, k: Consts, stale: set<string>, loop: Stmt, c: Counted) {
    && Counting(sc, k, stale, loop, c) && !BlockBreaksOut(Work(loop))
    && Exact(c, loop.cond.value.op, loop.cond.value.operands[1].lit.i)
  }

  /** Iterations `i` and up: the loop with fuel `f`, the copies with any more. */
  lemma {:induction false} CopiesLowered(sc: Scene, env: Env, k: Consts, stale: set<string>, loop: Stmt, c: Counted,
      i: nat, st: State, lo: State, depth: nat, f: nat, fuel: nat)
    requires i <= c.trips && f <= fuel && Setting(env, sc.names) && Unrolls(sc, k, stale, loop, c)
    requires Linked(sc, k[c.counter := c.start + i], stale, st, lo)
    ensures Same(sc, k, stale, stale, ExecLoop(env, loop, st, depth, f),
                 ExecBlock(LowerEnv(env), Copies(Work(loop), c, i, k), lo, depth, fuel))
    decreases f, loop, 3
  {
    TestRuns(sc, env, k, stale, loop, c, c.start + i, st, lo, depth, f);
    if i == c.trips {
      BoundLess(sc, k, c.counter, c.start + i, stale, st, lo);
    } else {
      IterationLowered(sc, env, k, stale, loop, c, i, st, lo, depth, f, fuel);
    }
  }

  lemma TestRuns(sc: Scene, env: Env, k: Consts, stale: set<string>, loop: Stmt, c: Counted, v: int, st: State,
      lo: State, depth: nat, f: nat)
    requires Setting(env, sc.names) && Counting(sc, k, stale, loop, c) && IsI64(v)
      && Linked(sc, k[c.counter := v], stale, st, lo)
    ensures Eval(env, loop.cond.value, st, depth, f)
         == Val(BoolV(Ordered(loop.cond.value.op, v, loop.cond.value.operands[1].lit.i)), st)
  {
    hide Blind, FunctionsSafe, Linked;
    var cond, bound := loop.cond.value, loop.cond.value.operands[1].lit.i;
    var es := cond.operands;
    LoadKnown(sc, k[c.counter := v], stale, st, lo, c.counter);
    assert IntOpsAt(env, v, bound, st.w.heap);
    assert es == [Ident(c.counter), es[1]] && es[1..] == [es[1]];
    assert EvalAll(env, [es[1]], st, depth, f) == Vals([IntV(bound)], st);
    assert EvalAll(env, es, st, depth, f) == Vals([IntV(v), IntV(bound)], st);
    assert st.(w := st.w.(heap := st.w.heap)) == st;
  }

  /** `counter + 1`, however it is written. */
  lemma IncrementRuns(env: Env, s: Stmt, counter: string, v: int, st: State, depth: nat, f: nat)
    requires IntOps(env) && IsIncrement(s, counter) && IsI64(v) && IsI64(v + 1)
      && LoadName(counter, st.sc, st.w) == Ok(IntV(v))
    ensures Exec(env, s, st, depth, f) == Normal(BindName(counter, IntV(v + 1), st))
  {
    assert IntOpsAt(env, v, 1, st.w.heap);
    assert st.(w := st.w.(heap := st.w.heap)) == st;
    assert ApplyPrim(env, Binary(Add), [IntV(v), IntV(1)], st) == Val(IntV(v + 1), st);
    assert |s.targets| == 1 && s.targets[0] == To(counter);
    if s.addAssign {
      assert Eval(env, s.value, st, depth, f) == Val(IntV(1), st);
    } else {
      var es := s.value.operands;
      assert es[1..] == [Literal(IntLit(1))];
      assert EvalAll(env, es[1..], st, depth, f) == Vals([IntV(1)], st);
      assert EvalAll(env, es, st, depth, f) == Vals([IntV(v), IntV(1)], st);
      assert Eval(env, s.value, st, depth, f) == Val(IntV(v + 1), st);
    }
  }

  lemma {:induction false} AppendRuns(env: Env, a: seq<Stmt>, s: Stmt, st: State, depth: nat, f: nat)
    ensures ExecBlock(env, a + [s], st, depth, f)
         == match ExecBlock(env, a, st, depth, f)
            case Normal(st1) => Exec(env, s, st1, depth, f)
            case r => r
    decreases |a|
  {
    if a == [] {
      assert a + [s] == [s] && [s][1..] == [];
      assert ExecBlock(env, a, st, depth, f) == Normal(st);
      var r := Exec(env, s, st, depth, f);
      assert r.Normal? ==> ExecBlock(env, [], r.st, depth, f) == r;
      assert ExecBlock(env, [s], st, depth, f) == r;
    } else {
      var all := a + [s];
      assert all[0] == a[0] && all[1..] == a[1..] + [s];
      var r := Exec(env, a[0], st, depth, f);
      if r.Normal? {
        AppendRuns(env, a[1..], s, r.st, depth, f);
        assert ExecBlock(env, a, st, depth, f) == ExecBlock(env, a[1..], r.st, depth, f);
        assert ExecBlock(env, all, st, depth, f) == ExecBlock(env, all[1..], r.st, depth, f);
      } else {
        assert ExecBlock(env, all, st, depth, f) == r;
      }
    }
  }

  /** One iteration and the ones behind it. */
  lemma {:induction false} IterationLowered(sc: Scene, env: Env, k: Consts, stale: set<string>, loop: Stmt, c: Counted,
      i: nat, st: State, lo: State, depth: nat, f: nat, fuel: nat)
    requires i < c.trips && f <= fuel && Setting(env, sc.names) && Unrolls(sc, k, stale, loop, c)
    requires Linked(sc, k[c.counter := c.start + i], stale, st, lo)
    requires Ordered(loop.cond.value.op, c.start + i, loop.cond.value.operands[1].lit.i)
    ensures Same(sc, k, stale, stale, LoopBody(env, loop, st, depth, f),
                 ExecBlock(LowerEnv(env), Copies(Work(loop), c, i, k), lo, depth, fuel))
    decreases f, loop, 2
  {
    hide Setting, Linked, Exec, ExecLoop, Ordered, LowerStmts;
    var v, work, last := c.start + i, Work(loop), loop.body[|loop.body| - 1];
    var k1 := k[c.counter := v];
    var low := LowerStmts(work, k1);
    assert k1.Keys == k.Keys + {c.counter} && stale + ListCounters(work) == stale;
    ListLowered(sc, env, k1, stale, work, st, lo, depth, f);
    var r, q := ExecBlock(env, work, st, depth, f), ExecBlock(LowerEnv(env), low, lo, depth, f);
    BlockNeverBroke(env, work, st, depth, f);
    assert loop.body == work + [last];
    AppendRuns(env, work, last, st, depth, f);
    if !r.OutOfFuel? {
      ExecBlockMore(LowerEnv(env), low, lo, depth, f, fuel);
      HeadRuns(LowerEnv(env), low, Copies(work, c, i + 1, k), lo, depth, fuel);
      BoundLess(sc, k, c.counter, v, stale, r.st, q.st);
      if r.Normal? {
        NextIteration(sc, env, k, stale, loop, c, i, r.st, q.st, depth, f, fuel);
      }
    }
  }

  lemma {:induction false} NextIteration(sc: Scene, env: Env, k: Consts, stale: set<string>, loop: Stmt, c: Counted,
      i: nat, st: State, lo: State, depth: nat, f: nat, fuel: nat)
    requires i < c.trips && f <= fuel && Setting(env, sc.names) && Unrolls(sc, k, stale, loop, c)
    requires Linked(sc, k[c.counter := c.start + i], stale, st, lo)
    ensures
      var st1 := BindName(c.counter, IntV(c.start + i + 1), st);
      && Exec(env, loop.body[|loop.body| - 1], st, depth, f) == Normal(st1)
      && (f > 0 ==> Same(sc, k, stale, stale, ExecLoop(env, loop, st1, depth, f - 1),
                         ExecBlock(LowerEnv(env), Copies(Work(loop), c, i + 1, k), lo, depth, fuel)))
    decreases f, loop, 1
  {
    hide Blind, FunctionsSafe, Linked, ExecBlock, ExecLoop, Copies, Same;
    var v, k1 := c.start + i, k[c.counter := c.start + i];
    LoadKnown(sc, k1, stale, st, lo, c.counter);
    IncrementRuns(env, loop.body[|loop.body| - 1], c.counter, v, st, depth, f);
    BindCounter(sc, k1, stale, st, lo, c.counter, v + 1);
    assert k1[c.counter := v + 1] == k[c.counter := c.start + (i + 1)];
    if f > 0 {
      CopiesLowered(sc, env, k, stale, loop, c, i + 1, BindName(c.counter, IntV(v + 1), st), lo, depth, f - 1, fuel);
    }
  }

  lemma {:induction false} ListLowered(sc: Scene, env: Env, k: Consts, stale: set<string>, ss: seq<Stmt>, st: State,
      lo: State, depth: nat, fuel: nat)
    requires Setting(env, sc.names) && SafeList(ss, k.Keys, stale, sc.names) && Linked(sc, k, stale, st, lo)
    ensures Same(sc, k, stale + ListCounters(ss), stale + ListCounters(ss), ExecBlock(env, ss, st, depth, fuel),
                 ExecBlock(LowerEnv(env), LowerStmts(ss, k), lo, depth, fuel))
    decreases fuel, ss, 3
  {
    var all := stale + ListCounters(ss);
    if ss == [] {
      assert all == stale;
    } else {
      var mid := After(ss[0], stale);
      StmtLowered(sc, env, k, stale, ss[0], st, lo, depth, fuel);
      var r, q := Exec(env, ss[0], st, depth, fuel), Exec(LowerEnv(env), LowerStmt(ss[0], k), lo, depth, fuel);
      if r.Normal? {
        ListLowered(sc, env, k, mid, ss[1..], r.st, q.st, depth, fuel);
        SameMore(sc, k, mid + ListCounters(ss[1..]), all, mid + ListCounters(ss[1..]), all,
                 ExecBlock(env, ss[1..], r.st, depth, fuel),
                   ExecBlock(LowerEnv(env), LowerStmts(ss[1..], k), q.st, depth, fuel));
      } else {
        SameMore(sc, k, mid, all, stale + Counters(ss[0]), all, r, q);
      }
    }
  }
}