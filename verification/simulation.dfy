/** The compiled code does what the source means.

    The machine state while a statement runs is described against the state in which
    the statement started: its operand stack only grows (a `break` that leaves a `match`
    leaves the scrutinee behind), and its handler list only gains handlers of monitors
    inside the statement, which are stale once the statement is over. */
module Simulation {
  import opened Syntax
  import opened Semantics
  import opened Machine
  import opened Layout
  import opened Breaks

  /** Every declared function is well formed and has its code loaded. */
  ghost predicate Loaded(im: Image) {
    forall f | f in im.env.funs :: WfBlock(im.env.funs[f].body) && FunctionAt(im.code(f), im.env.funs[f])
  }

  /** What stays fixed around a construct: the blob, the operands and handlers below
      it, and the suspended callers. */
  datatype Site = Site(blob: string, stack: seq<Value>, mons: seq<Mon>, callers: seq<Suspended>)

  function At(g: Site, pc: nat, st: State): Config {
    Running(Frame(g.blob, pc, g.stack, st.sc, g.mons), g.callers, st.w)
  }

  function Push1(g: Site, v: Value): Site {
    g.(stack := g.stack + [v])
  }

  function PushAll(g: Site, vs: seq<Value>): Site {
    g.(stack := g.stack + vs)
  }

  function Grow(g: Site, junk: seq<Value>, stale: seq<Mon>): Site {
    g.(stack := g.stack + junk, mons := g.mons + stale)
  }

  /** The configuration a fault of the instruction at `pc` leads to. */
  function RaiseAt(g: Site, x: Exn, pc: nat, st: State): Config {
    Raise(x, pc, g.blob, g.stack, st.sc, g.mons, g.callers, st.w)
  }

  // ---- protected regions ----

  type Region = (nat, nat)

  /** The protected regions of the monitors inside a construct at `at`. */
  function Regions(s: Stmt, at: nat): set<Region>
    decreases s, 1
  {
    match s
    case Block(body) => BlockRegions(body, at)
    case If(chain) => ChainRegions(chain, at)
    case Loop(cond, body) => BlockRegions(body, at + SizeCond(cond))
    case Match(scrutinee, cases) => CaseRegions(cases, at + SizeExpr(scrutinee))
    case Monitor(body, _, handler) =>
      var exit := at + 5 + SizeBlock(body);
      {(at + 5, exit + 6)} + BlockRegions(body, at + 5) + BlockRegions(handler, exit + 15)
    case _ => {}
  }

  function BlockRegions(ss: seq<Stmt>, at: nat): set<Region>
    decreases ss, 0
  {
    if ss == [] then {} else Regions(ss[0], at) + BlockRegions(ss[1..], at + SizeStmt(ss[0]))
  }

  function ChainRegions(ch: Chain, at: nat): set<Region>
    decreases ch, 0
  {
    match ch
    case Else(els) => BlockRegions(els, at)
    case Elif(cond, hint, body, rest) =>
      BlockRegions(body, ArmStart(ch, at)) + ChainRegions(rest, NextArm(ch, at))
  }

  function CaseRegions(cases: seq<Case>, at: nat): set<Region>
    decreases cases, 0
  {
    if cases == [] then {}
    else BlockRegions(cases[0].body, at + 24) + CaseRegions(cases[1..], at + 24 + SizeBlock(cases[0].body) + 5)
  }

  ghost predicate Within(rs: set<Region>, from: nat, to: nat) {
    forall r | r in rs :: from <= r.0 && r.1 <= to
  }

  lemma {:induction false} RegionsWithin(s: Stmt, at: nat)
    ensures Within(Regions(s, at), at, at + SizeStmt(s))
    decreases s, 1
  {
    match s
    case Block(body) => BlockRegionsWithin(body, at);
    case If(chain) => ChainRegionsWithin(chain, at);
    case Loop(cond, body) => BlockRegionsWithin(body, at + SizeCond(cond));
    case Match(scrutinee, cases) => CaseRegionsWithin(cases, at + SizeExpr(scrutinee));
    case Monitor(body, _, handler) =>
      BlockRegionsWithin(body, at + 5);
      BlockRegionsWithin(handler, at + 5 + SizeBlock(body) + 15);
    case _ =>
  }

  lemma {:induction false} BlockRegionsWithin(ss: seq<Stmt>, at: nat)
    ensures Within(BlockRegions(ss, at), at, at + SizeBlock(ss))
    decreases ss, 0
  {
    if ss != [] {
      RegionsWithin(ss[0], at);
      BlockRegionsWithin(ss[1..], at + SizeStmt(ss[0]));
    }
  }

  lemma {:induction false} ChainRegionsWithin(ch: Chain, at: nat)
    ensures Within(ChainRegions(ch, at), at, at + SizeChain(ch))
    decreases ch, 0
  {
    match ch
    case Else(els) => BlockRegionsWithin(els, at);
    case Elif(cond, hint, body, rest) =>
      var start := at + SizeExpr(cond) + SizeHint(hint) + 5;
      BlockRegionsWithin(body, start);
      ChainRegionsWithin(rest, start + SizeBlock(body) + 5);
  }

  lemma {:induction false} CaseRegionsWithin(cases: seq<Case>, at: nat)
    ensures Within(CaseRegions(cases, at), at, at + SizeCases(cases))
    decreases cases, 0
  {
    if cases != [] {
      BlockRegionsWithin(cases[0].body, at + 24);
      CaseRegionsWithin(cases[1..], at + 24 + SizeBlock(cases[0].body) + 5);
    }
  }

  ghost predicate Outside(pc: nat, rs: set<Region>) {
    forall r | r in rs :: !(r.0 <= pc < r.1)
  }

  ghost predicate From(stale: seq<Mon>, rs: set<Region>) {
    forall m | m in stale :: (m.start, m.handler) in rs
  }

  // ---- one instruction ----

  lemma StackTop(s: seq<Value>, vs: seq<Value>)
    ensures (s + vs)[|s|..] == vs && (s + vs)[..|s|] == s
    ensures |s + vs| - |vs| == |s|
  {
  }

  lemma Go(im: Image, c: Config, d: Config, e: Config)
    requires Reaches(im, c, d) && Step(im, d) == e
    ensures Reaches(im, c, e)
  {
    ReachesStep(im, d);
    ReachesTrans(im, c, d, e);
  }

  lemma RunPush(im: Image, c: Config, g: Site, pc: nat, st: State, l: Lit)
    requires InstrAt(im.code(g.blob), pc, Push(l)) && Reaches(im, c, At(g, pc, st))
    ensures match LitOutcome(im.env, l)
            case Ok(v) => Reaches(im, c, At(Push1(g, v), pc + LitWidth(l), st))
            case Raised(x) => Reaches(im, c, RaiseAt(g, x, pc, st))
  {
    Go(im, c, At(g, pc, st), Step(im, At(g, pc, st)));
  }

  lemma RunLoad(im: Image, c: Config, g: Site, pc: nat, st: State, name: string)
    requires InstrAt(im.code(g.blob), pc, Load(name)) && Reaches(im, c, At(g, pc, st))
    ensures match LoadName(name, st.sc, st.w)
            case Ok(v) => Reaches(im, c, At(Push1(g, v), pc + 9, st))
            case Raised(x) => Reaches(im, c, RaiseAt(g, x, pc, st))
  {
    Go(im, c, At(g, pc, st), Step(im, At(g, pc, st)));
  }

  lemma RunStore(im: Image, c: Config, g: Site, v: Value, pc: nat, st: State, name: string)
    requires InstrAt(im.code(g.blob), pc, Store(name)) && Reaches(im, c, At(Push1(g, v), pc, st))
    ensures Reaches(im, c, At(g, pc + 9, BindName(name, v, st)))
  {
    StackTop(g.stack, [v]);
    Go(im, c, At(Push1(g, v), pc, st), At(g, pc + 9, BindName(name, v, st)));
  }

  lemma RunPop(im: Image, c: Config, g: Site, v: Value, pc: nat, st: State)
    requires InstrAt(im.code(g.blob), pc, Pop) && Reaches(im, c, At(Push1(g, v), pc, st))
    ensures Reaches(im, c, At(g, pc + 1, st))
  {
    StackTop(g.stack, [v]);
    Go(im, c, At(Push1(g, v), pc, st), At(g, pc + 1, st));
  }

  lemma RunDup(im: Image, c: Config, g: Site, v: Value, pc: nat, st: State)
    requires InstrAt(im.code(g.blob), pc, Dup) && Reaches(im, c, At(Push1(g, v), pc, st))
    ensures Reaches(im, c, At(Push1(Push1(g, v), v), pc + 1, st))
  {
    StackTop(g.stack, [v]);
    Go(im, c, At(Push1(g, v), pc, st), At(Push1(Push1(g, v), v), pc + 1, st));
  }

  lemma RunSwap(im: Image, c: Config, g: Site, a: Value, b: Value, pc: nat, st: State)
    requires InstrAt(im.code(g.blob), pc, Swap) && Reaches(im, c, At(Push1(Push1(g, a), b), pc, st))
    ensures Reaches(im, c, At(Push1(Push1(g, b), a), pc + 1, st))
  {
    var s := g.stack + [a] + [b];
    assert s[..|s| - 2] == g.stack;
    assert s[..|s| - 2] + [s[|s| - 1], s[|s| - 2]] == g.stack + [b] + [a];
    Go(im, c, At(Push1(Push1(g, a), b), pc, st), At(Push1(Push1(g, b), a), pc + 1, st));
  }

  /** The state an operation runs on is the one `ApplyPrim` sees. */
  lemma RunDo(im: Image, c: Config, g: Site, vs: seq<Value>, pc: nat, st: State, op: Op)
    requires InstrAt(im.code(g.blob), pc, Do(op)) && |vs| == Arity(op)
    requires Reaches(im, c, At(PushAll(g, vs), pc, st))
    ensures match ApplyPrim(im.env, op, vs, st)
            case Val(v, st1) => Reaches(im, c, At(Push1(g, v), pc + OpWidth(op), st1))
            case Fault(x, st1) => Reaches(im, c, RaiseAt(g, x, pc, st1))
            case Spent => false
  {
    StackTop(g.stack, vs);
    Go(im, c, At(PushAll(g, vs), pc, st), Step(im, At(PushAll(g, vs), pc, st)));
  }

  lemma RunDo2(im: Image, c: Config, g: Site, a: Value, b: Value, pc: nat, st: State, bop: BinOp)
    requires InstrAt(im.code(g.blob), pc, Do(Binary(bop)))
    requires Reaches(im, c, At(Push1(Push1(g, a), b), pc, st))
    ensures match ApplyPrim(im.env, Binary(bop), [a, b], st)
            case Val(v, st1) => Reaches(im, c, At(Push1(g, v), pc + 1, st1))
            case Fault(x, st1) => Reaches(im, c, RaiseAt(g, x, pc, st1))
            case Spent => false
  {
    assert g.stack + [a] + [b] == g.stack + [a, b];
    RunDo(im, c, g, [a, b], pc, st, Binary(bop));
  }

  lemma RunJmp(im: Image, c: Config, g: Site, pc: nat, st: State, t: nat)
    requires InstrAt(im.code(g.blob), pc, Jmp(t)) && Reaches(im, c, At(g, pc, st))
    ensures Reaches(im, c, At(g, t, st))
  {
    Go(im, c, At(g, pc, st), At(g, t, st));
  }

  lemma RunJmpAlive(im: Image, g: Site, pc: nat, st: State, t: nat, k: nat)
    requires InstrAt(im.code(g.blob), pc, Jmp(t)) && Alive(im, At(g, t, st), k)
    ensures Alive(im, At(g, pc, st), k + 1)
  {
    assert Step(im, At(g, pc, st)) == At(g, t, st);
    AliveStep(im, At(g, pc, st), k);
  }

  lemma RunIfFalse(im: Image, c: Config, g: Site, v: Value, pc: nat, st: State, t: nat)
    requires InstrAt(im.code(g.blob), pc, JmpIfFalse(t)) && Reaches(im, c, At(Push1(g, v), pc, st))
    ensures IsTruthy(v) ==> Reaches(im, c, At(g, pc + 5, st))
    ensures !IsTruthy(v) ==> Reaches(im, c, At(g, t, st))
  {
    StackTop(g.stack, [v]);
    Go(im, c, At(Push1(g, v), pc, st), At(g, if IsTruthy(v) then pc + 5 else t, st));
  }

  lemma RunIfTrue(im: Image, c: Config, g: Site, v: Value, pc: nat, st: State, t: nat)
    requires InstrAt(im.code(g.blob), pc, JmpIfTrue(t)) && Reaches(im, c, At(Push1(g, v), pc, st))
    ensures IsTruthy(v) ==> Reaches(im, c, At(g, t, st))
    ensures !IsTruthy(v) ==> Reaches(im, c, At(g, pc + 5, st))
  {
    StackTop(g.stack, [v]);
    Go(im, c, At(Push1(g, v), pc, st), At(g, if IsTruthy(v) then t else pc + 5, st));
  }

  lemma RunRet(im: Image, c: Config, g: Site, v: Value, pc: nat, st: State)
    requires InstrAt(im.code(g.blob), pc, Ret) && Reaches(im, c, At(Push1(g, v), pc, st))
    ensures Reaches(im, c, Leave(v, g.callers, st.w))
  {
    StackTop(g.stack, [v]);
    Go(im, c, At(Push1(g, v), pc, st), Leave(v, g.callers, st.w));
  }

  lemma RunHalt(im: Image, c: Config, g: Site, pc: nat, st: State)
    requires InstrAt(im.code(g.blob), pc, Instr.Halt) && Reaches(im, c, At(g, pc, st))
    ensures Reaches(im, c, Leave(NullV, g.callers, st.w))
  {
    Go(im, c, At(g, pc, st), Leave(NullV, g.callers, st.w));
  }

  lemma RunHint(im: Image, c: Config, g: Site, pc: nat, st: State, h: Hint)
    requires HintAt(im.code(g.blob), pc, h) && Reaches(im, c, At(g, pc, st))
    ensures Reaches(im, c, At(g, pc + SizeHint(h), st))
  {
    if !h.NoHint? {
      Go(im, c, At(g, pc, st), At(g, pc + 2, st));
    }
  }

  lemma RunUnpack(im: Image, c: Config, g: Site, v: Value, pc: nat, st: State, n: nat)
    requires InstrAt(im.code(g.blob), pc, Instr.Unpack(n)) && Reaches(im, c, At(Push1(g, v), pc, st))
    ensures match Unpacked(im.env, v, n, st.w.heap)
            case None => Reaches(im, c, RaiseAt(g, UnpackFault(), pc, st))
            case Some(vs) => Reaches(im, c, At(PushAll(g, Reverse(vs)), pc + 2, st))
  {
    StackTop(g.stack, [v]);
    Go(im, c, At(Push1(g, v), pc, st), Step(im, At(Push1(g, v), pc, st)));
  }

  lemma RunEnter(im: Image, c: Config, g: Site, pc: nat, st: State, t: nat)
    requires InstrAt(im.code(g.blob), pc, MonitorEnter(t)) && Reaches(im, c, At(g, pc, st))
    ensures Reaches(im, c, At(Grow(g, [], [Mon(pc + 5, t, |g.stack|)]), pc + 5, st))
  {
    assert g.stack + [] == g.stack;
    Go(im, c, At(g, pc, st), At(Grow(g, [], [Mon(pc + 5, t, |g.stack|)]), pc + 5, st));
  }

  lemma RunExit(im: Image, c: Config, g: Site, m: Mon, pc: nat, st: State)
    requires InstrAt(im.code(g.blob), pc, MonitorExit) && Reaches(im, c, At(Grow(g, [], [m]), pc, st))
    ensures Reaches(im, c, At(g, pc + 1, st))
  {
    assert g.stack + [] == g.stack && (g.mons + [m])[..|g.mons|] == g.mons;
    Go(im, c, At(Grow(g, [], [m]), pc, st), At(g, pc + 1, st));
  }

  // ---- expressions ----

  ghost predicate ExprPost(im: Image, g: Site, c0: Config, at: nat, size: nat, fuel: nat,
                           r: ExprResult, junk: seq<Value>, pc: nat) {
    match r
    case Val(v, st) => Reaches(im, c0, At(Push1(g, v), at + size, st))
    case Fault(x, st) => at <= pc < at + size && Reaches(im, c0, RaiseAt(PushAll(g, junk), x, pc, st))
    case Spent => Alive(im, c0, fuel)
  }

  ghost predicate ExprsPost(im: Image, g: Site, c0: Config, at: nat, size: nat, fuel: nat,
                            r: ExprsResult, junk: seq<Value>, pc: nat) {
    match r
    case Vals(vs, st) => Reaches(im, c0, At(PushAll(g, vs), at + size, st))
    case FaultIn(x, st) => at <= pc < at + size && Reaches(im, c0, RaiseAt(PushAll(g, junk), x, pc, st))
    case SpentIn => Alive(im, c0, fuel)
  }

  /** A construct whose last part is an expression ends as that expression does. */
  lemma ExprAfter(im: Image, g: Site, c: Config, d: Config, at: nat, size: nat, at1: nat, size1: nat, fuel: nat,
                  r: ExprResult, junk: seq<Value>, pc: nat)
    requires Reaches(im, c, d) && ExprPost(im, g, d, at1, size1, fuel, r, junk, pc)
    requires at <= at1 && at + size == at1 + size1
    ensures ExprPost(im, g, c, at, size, fuel, r, junk, pc)
  {
    match r
    case Val(v, st) => ReachesTrans(im, c, d, At(Push1(g, v), at + size, st));
    case Fault(x, st) => ReachesTrans(im, c, d, RaiseAt(PushAll(g, junk), x, pc, st));
    case Spent => AliveBefore(im, c, d, fuel);
  }

  /** Operands above `v`: what happened above it, seen from below it. */
  lemma ExprsAfter(im: Image, g: Site, v: Value, c: Config, d: Config, at: nat, size: nat, at1: nat, size1: nat,
      fuel: nat, r: ExprsResult, junk: seq<Value>, pc: nat)
    requires Reaches(im, c, d) && ExprsPost(im, Push1(g, v), d, at1, size1, fuel, r, junk, pc)
    requires at <= at1 && at + size >= at1 + size1
    ensures match r
            case Vals(vs, st) => Reaches(im, c, At(PushAll(g, [v] + vs), at1 + size1, st))
            case FaultIn(x, st) => at <= pc < at + size && Reaches(im, c, RaiseAt(PushAll(g, [v] + junk), x, pc, st))
            case SpentIn => Alive(im, c, fuel)
  {
    match r
    case Vals(vs, st) =>
      PushSplit(g, [v], vs);
      ReachesTrans(im, c, d, At(PushAll(g, [v] + vs), at1 + size1, st));
    case FaultIn(x, st) =>
      PushSplit(g, [v], junk);
      ReachesTrans(im, c, d, RaiseAt(PushAll(g, [v] + junk), x, pc, st));
    case SpentIn => AliveBefore(im, c, d, fuel);
  }

  lemma RunShortCircuit(im: Image, c: Config, g: Site, v: Value, pc: nat, st: State, isAnd: bool, end: nat)
    requires ShortcutAt(im.code(g.blob), pc, isAnd, end) && Reaches(im, c, At(Push1(g, v), pc, st))
    ensures Reaches(im, c, if IsTruthy(v) == isAnd then At(g, pc + 7, st) else At(Push1(g, v), end, st))
  {
    RunDup(im, c, g, v, pc, st);
    if isAnd {
      RunIfFalse(im, c, Push1(g, v), v, pc + 1, st, end);
    } else {
      RunIfTrue(im, c, Push1(g, v), v, pc + 1, st, end);
    }
    if IsTruthy(v) == isAnd {
      RunPop(im, c, g, v, pc + 6, st);
    }
  }

  lemma PushSplit(g: Site, a: seq<Value>, b: seq<Value>)
    ensures PushAll(PushAll(g, a), b) == PushAll(g, a + b)
    ensures PushAll(g, []) == g
  {
    assert (g.stack + a) + b == g.stack + (a + b);
    assert g.stack + [] == g.stack;
  }

  lemma {:induction false} SimExpr(im: Image, e: Expr, g: Site, at: nat, st: State, fuel: nat)
    returns (junk: seq<Value>, pc: nat)
    requires Loaded(im) && WfExpr(e) && ExprAt(im.code(g.blob), at, e)
    ensures ExprPost(im, g, At(g, at, st), at, SizeExpr(e), fuel, Eval(im.env, e, st, |g.callers|, fuel), junk, pc)
    decreases fuel, e, 1
  {
    var c0 := At(g, at, st);
    junk, pc := [], at;
    ReachesSelf(im, c0);
    match e
    case Literal(l) => RunPush(im, c0, g, at, st, l); PushSplit(g, [], []);
    case Ident(name) => RunLoad(im, c0, g, at, st, name); PushSplit(g, [], []);
    case Apply(op, operands) => junk, pc := SimApply(im, e, g, at, st, fuel);
    case Logical(_, _, _) => junk, pc := SimLogical(im, e, g, at, st, fuel);
    case Call(_, _) => junk, pc := SimCall(im, e, g, at, st, fuel);
  }

  lemma {:induction false} SimExprs(im: Image, es: seq<Expr>, g: Site, at: nat, st: State, fuel: nat)
    returns (junk: seq<Value>, pc: nat)
    requires Loaded(im) && WfExprs(es) && ExprsAt(im.code(g.blob), at, es)
    ensures ExprsPost(im, g, At(g, at, st), at, SizeExprs(es), fuel, EvalAll(im.env, es, st, |g.callers|, fuel), junk,
      pc)
    decreases fuel, es, 0
  {
    var c0 := At(g, at, st);
    junk, pc := [], at;
    if es == [] {
      ReachesSelf(im, c0);
      PushSplit(g, [], []);
    } else {
      junk, pc := SimExpr(im, es[0], g, at, st, fuel);
      match Eval(im.env, es[0], st, |g.callers|, fuel)
      case Val(v, st1) =>
        var mid := at + SizeExpr(es[0]);
        junk, pc := SimExprs(im, es[1..], Push1(g, v), mid, st1, fuel);
        ExprsAfter(im, g, v, c0, At(Push1(g, v), mid, st1), at, SizeExprs(es), mid, SizeExprs(es[1..]), fuel,
                   EvalAll(im.env, es[1..], st1, |g.callers|, fuel), junk, pc);
        junk := [v] + junk;
      case _ =>
    }
  }

  lemma {:induction false} SimApply(im: Image, e: Expr, g: Site, at: nat, st: State, fuel: nat)
    returns (junk: seq<Value>, pc: nat)
    requires e.Apply? && Loaded(im) && WfExpr(e) && ExprAt(im.code(g.blob), at, e)
    ensures ExprPost(im, g, At(g, at, st), at, SizeExpr(e), fuel, Eval(im.env, e, st, |g.callers|, fuel), junk, pc)
    decreases fuel, e, 0
  {
    var c0 := At(g, at, st);
    junk, pc := SimExprs(im, e.operands, g, at, st, fuel);
    match EvalAll(im.env, e.operands, st, |g.callers|, fuel)
    case Vals(vs, st1) =>
      pc := at + SizeExprs(e.operands);
      junk := [];
      PushSplit(g, [], []);
      RunDo(im, c0, g, vs, pc, st1, e.op);
    case _ =>
  }

  lemma {:induction false} SimLogical(im: Image, e: Expr, g: Site, at: nat, st: State, fuel: nat)
    returns (junk: seq<Value>, pc: nat)
    requires e.Logical? && Loaded(im) && WfExpr(e) && ExprAt(im.code(g.blob), at, e)
    ensures ExprPost(im, g, At(g, at, st), at, SizeExpr(e), fuel, Eval(im.env, e, st, |g.callers|, fuel), junk, pc)
    decreases fuel, e, 0
  {
    var c0, mid := At(g, at, st), at + SizeExpr(e.left);
    junk, pc := SimExpr(im, e.left, g, at, st, fuel);
    match Eval(im.env, e.left, st, |g.callers|, fuel)
    case Val(v, st1) =>
      junk, pc := SimRight(im, e, g, c0, at, v, st1, fuel);
    case _ =>
  }

  /** The rest of a short-circuit form once its left operand is `v`. */
  lemma {:induction false} SimRight(im: Image, e: Expr, g: Site, c0: Config, at: nat, v: Value, st: State, fuel: nat)
    returns (junk: seq<Value>, pc: nat)
    requires e.Logical? && Loaded(im) && WfExpr(e) && ExprAt(im.code(g.blob), at, e)
    requires Reaches(im, c0, At(Push1(g, v), at + SizeExpr(e.left), st))
    ensures ExprPost(im, g, c0, at, SizeExpr(e), fuel,
                     if IsTruthy(v) == e.isAnd then Eval(im.env, e.right, st, |g.callers|, fuel)
                       else Val(v, st), junk, pc)
    decreases fuel, e, 0, 0
  {
    hide Loaded, Reaches, Alive, Eval, InstrAt;
    var mid := at + SizeExpr(e.left) + 7;
    junk, pc := [], at;
    RunShortCircuit(im, c0, g, v, mid - 7, st, e.isAnd, at + SizeExpr(e));
    if IsTruthy(v) == e.isAnd {
      junk, pc := SimExpr(im, e.right, g, mid, st, fuel);
      ExprAfter(im, g, c0, At(g, mid, st), at, SizeExpr(e), mid, SizeExpr(e.right), fuel,
                Eval(im.env, e.right, st, |g.callers|, fuel), junk, pc);
    }
  }

  lemma {:induction false} SimCall(im: Image, e: Expr, g: Site, at: nat, st: State, fuel: nat)
    returns (junk: seq<Value>, pc: nat)
    requires e.Call? && Loaded(im) && WfExpr(e) && ExprAt(im.code(g.blob), at, e)
    ensures ExprPost(im, g, At(g, at, st), at, SizeExpr(e), fuel, Eval(im.env, e, st, |g.callers|, fuel), junk, pc)
    decreases fuel, e, 0
  {
    var c0, mid := At(g, at, st), at + SizeExpr(e.callee);
    junk, pc := SimExpr(im, e.callee, g, at, st, fuel);
    match Eval(im.env, e.callee, st, |g.callers|, fuel)
    case Val(f, st1) =>
      junk, pc := SimArgs(im, e, g, c0, at, f, st1, fuel);
    case _ =>
  }

  lemma {:induction false} SimArgs(im: Image, e: Expr, g: Site, c0: Config, at: nat, f: Value, st: State, fuel: nat)
    returns (junk: seq<Value>, pc: nat)
    requires e.Call? && Loaded(im) && WfExpr(e) && ExprAt(im.code(g.blob), at, e)
    requires Reaches(im, c0, At(Push1(g, f), at + SizeExpr(e.callee), st))
    ensures ExprPost(im, g, c0, at, SizeExpr(e), fuel, EvalCall(im.env, e, f, st, |g.callers|, fuel), junk, pc)
    decreases fuel, e, 0, 1
  {
    var mid := at + SizeExpr(e.callee);
    var args := EvalAll(im.env, e.args, st, |g.callers|, fuel);
    junk, pc := SimExprs(im, e.args, Push1(g, f), mid, st, fuel);
    ExprsAfter(im, g, f, c0, At(Push1(g, f), mid, st), at, SizeExpr(e), mid, SizeExprs(e.args), fuel, args, junk, pc);
    junk := [f] + junk;
    if args.Vals? {
      pc := mid + SizeExprs(e.args);
      PushSplit(g, [f], args.vs);
      SimInvoke(im, e, g, pc, f, args.vs, args.st, fuel);
      CallAfter(im, g, c0, At(PushAll(Push1(g, f), args.vs), pc, args.st), at, SizeExpr(e), pc, fuel,
                CallResult(im.env, f, args.vs, args.st, |g.callers|, fuel));
      junk := [];
    }
  }

  lemma CallAfter(im: Image, g: Site, c: Config, d: Config, at: nat, size: nat, pc: nat, fuel: nat, r: ExprResult)
    requires Reaches(im, c, d) && CallPost(im, g, d, pc, fuel, r) && at <= pc && pc + 2 == at + size
    ensures ExprPost(im, g, c, at, size, fuel, r, [], pc)
  {
    PushSplit(g, [], []);
    match r
    case Val(v, st) => ReachesTrans(im, c, d, At(Push1(g, v), pc + 2, st));
    case Fault(x, st) => ReachesTrans(im, c, d, RaiseAt(g, x, pc, st));
    case Spent => AliveBefore(im, c, d, fuel);
  }

  /** The outcome of a call whose callee and arguments are evaluated. */
  function CallResult(env: Env, f: Value, vs: seq<Value>, st: State, depth: nat, fuel: nat): ExprResult {
    match Callable(env, f, vs, depth)
    case Refused(x) => Fault(x, st)
    case Outside => NativeCall(env, f, vs, st)
    case Enter(fn) =>
      if fuel == 0 then Spent
      else BodyResult(ExecBlock(env, fn.body, State(LocalScope(BindParams(fn.params, vs)), st.w), depth + 1, fuel - 1),
        st)
  }

  ghost predicate CallPost(im: Image, g: Site, c: Config, pc: nat, fuel: nat, r: ExprResult) {
    match r
    case Val(v, st1) => Reaches(im, c, At(Push1(g, v), pc + 2, st1))
    case Fault(x, st1) => Reaches(im, c, RaiseAt(g, x, pc, st1))
    case Spent => Alive(im, c, fuel)
  }

  /** The calling frame as it resumes behind its call instruction. */
  function Resume(g: Site, pc: nat, st: State): Frame {
    Frame(g.blob, pc + 2, g.stack, st.sc, g.mons)
  }

  lemma StepCall(im: Image, g: Site, pc: nat, f: Value, vs: seq<Value>, st: State)
    requires InstrAt(im.code(g.blob), pc, CallN(|vs|))
    ensures Step(im, At(PushAll(Push1(g, f), vs), pc, st))
         == Invoke(im.env, f, vs, Resume(g, pc, st), pc, g.callers, st.w)
  {
    var s := PushAll(Push1(g, f), vs).stack;
    StackTop(g.stack + [f], vs);
    assert s[..|g.stack|] == g.stack && s[|g.stack|] == f;
  }

  lemma StepOutside(im: Image, g: Site, pc: nat, f: Value, vs: seq<Value>, st: State)
    requires InstrAt(im.code(g.blob), pc, CallN(|vs|)) && !Callable(im.env, f, vs, |g.callers|).Enter?
    ensures CallPost(im, g, At(PushAll(Push1(g, f), vs), pc, st), pc, 0, CallResult(im.env, f, vs, st, |g.callers|, 0))
  {
    StepCall(im, g, pc, f, vs, st);
    ReachesStep(im, At(PushAll(Push1(g, f), vs), pc, st));
  }

  lemma {:induction false} SimInvoke(im: Image, e: Expr, g: Site, pc: nat, f: Value, vs: seq<Value>, st: State,
      fuel: nat)
    requires Loaded(im) && InstrAt(im.code(g.blob), pc, CallN(|vs|))
    ensures CallPost(im, g, At(PushAll(Push1(g, f), vs), pc, st), pc, fuel,
      CallResult(im.env, f, vs, st, |g.callers|, fuel))
    decreases fuel, e, 0, 0
  {
    hide Loaded, Reaches, InstrAt;
    match Callable(im.env, f, vs, |g.callers|)
    case Enter(fn) =>
      if fuel > 0 {
        var c := At(PushAll(Push1(g, f), vs), pc, st);
        var gf := Site(f.func, [], [], [Suspended(Resume(g, pc, st), pc)] + g.callers);
        var start := State(LocalScope(BindParams(fn.params, vs)), st.w);
        StepEnter(im, g, gf, pc, f, vs, st, fn);
        var s, pc1 := SimBody(im, fn, gf, start, fuel - 1);
        CallReturns(im, g, gf, c, At(gf, 9 * |fn.params|, start), pc, st, fuel - 1,
                    ExecBlock(im.env, fn.body, start, |gf.callers|, fuel - 1), s, pc1);
      }
    case _ => StepOutside(im, g, pc, f, vs, st);
  }

  /** Entering a function: the call instruction and the callee's prologue. */
  lemma StepEnter(im: Image, g: Site, gf: Site, pc: nat, f: Value, vs: seq<Value>, st: State, fn: Function)
    requires Loaded(im) && InstrAt(im.code(g.blob), pc, CallN(|vs|))
    requires Callable(im.env, f, vs, |g.callers|) == Enter(fn)
    requires gf == Site(f.func, [], [], [Suspended(Resume(g, pc, st), pc)] + g.callers)
    ensures WfBlock(fn.body) && FunctionAt(im.code(f.func), fn)
    ensures Reaches(im, Step(im, At(PushAll(Push1(g, f), vs), pc, st)),
                    At(gf, 9 * |fn.params|, State(LocalScope(BindParams(fn.params, vs)), st.w)))
  {
    assert [] + vs == vs;
    StepCall(im, g, pc, f, vs, st);
    PrologueRuns(im, fn.params, vs, gf, st.w);
  }

  ghost predicate BodyPost(im: Image, g: Site, c: Config, fuel: nat, r: StmtResult, s: seq<Value>, pc: nat) {
    match r
    case Normal(st1) => Reaches(im, c, Leave(NullV, g.callers, st1.w))
    case Broke(st1) => Reaches(im, c, Leave(NullV, g.callers, st1.w))
    case Returned(v, st1) => Reaches(im, c, Leave(v, g.callers, st1.w))
    case Faulted(x, st1) => Reaches(im, c, Raise(x, pc, g.blob, s, st1.sc, [], g.callers, st1.w))
    case OutOfFuel => Alive(im, c, fuel)
  }

  /** What a finished body means for the frame that called it. */
  lemma CallReturns(im: Image, g: Site, gf: Site, c: Config, c2: Config, pc: nat, st: State, fuel: nat,
                    r: StmtResult, s: seq<Value>, pc1: nat)
    requires gf.callers == [Suspended(Resume(g, pc, st), pc)] + g.callers
    requires c.Running? && Reaches(im, Step(im, c), c2) && BodyPost(im, gf, c2, fuel, r, s, pc1)
    ensures CallPost(im, g, c, pc, fuel + 1, BodyResult(r, st))
  {
    var c1 := Step(im, c);
    ReachesStep(im, c);
    ReachesTrans(im, c, c1, c2);
    assert gf.callers[1..] == g.callers;
    match r
    case OutOfFuel =>
      AliveBefore(im, c1, c2, fuel);
      AliveStep(im, c, fuel);
    case Normal(st1) => ReachesTrans(im, c, c2, Leave(NullV, gf.callers, st1.w));
    case Broke(st1) => ReachesTrans(im, c, c2, Leave(NullV, gf.callers, st1.w));
    case Returned(v, st1) => ReachesTrans(im, c, c2, Leave(v, gf.callers, st1.w));
    case Faulted(x, st1) => ReachesTrans(im, c, c2, Raise(x, pc1, gf.blob, s, st1.sc, [], gf.callers, st1.w));
  }

  // ---- calling convention ----

  /** The prologue run from a call's frame leaves an empty stack and each parameter
      bound locally to its argument, whatever the globals are. */
  lemma PrologueRuns(im: Image, params: seq<string>, args: seq<Value>, g: Site, w: World)
    requires |params| == |args| && PrologueAt(im.code(g.blob), 0, params)
    ensures Reaches(im, At(PushAll(g, args), 0, State(LocalScope(NullLocals(params)), w)),
                    At(g, 9 * |params|, State(LocalScope(BindParams(params, args)), w)))
  {
    var n := |params|;
    assert params[..n] == params && args[..n] == args && params[n..] == [] && args[n..] == [];
    assert PartlyBound(params, args, n) == NullLocals(params);
    PrologueRest(im, params, args, n, 0, g, w);
    BindParamsKeys(params, args);
    assert params[0..] == params && args[0..] == args;
    assert PartlyBound(params, args, 0) == BindParams(params, args);
  }

  lemma {:induction false} BindParamsKeys(params: seq<string>, args: seq<Value>)
    requires |params| == |args|
    ensures BindParams(params, args).Keys == set p | p in params
  {
    if params != [] {
      BindParamsKeys(params[1..], args[1..]);
      assert params == [params[0]] + params[1..];
    }
  }

  /** The parameters from `k` on bound, the others still null. */
  function PartlyBound(params: seq<string>, args: seq<Value>, k: nat): map<string, Value>
    requires |params| == |args| && k <= |params|
  {
    NullLocals(params) + BindParams(params[k..], args[k..])
  }

  lemma PartlyBoundStep(params: seq<string>, args: seq<Value>, k: nat)
    requires |params| == |args| && 0 < k <= |params|
    ensures params[k - 1] in PartlyBound(params, args, k)
    ensures PartlyBound(params, args, k)[params[k - 1] := args[k - 1]] == PartlyBound(params, args, k - 1)
  {
    assert params[k - 1..][1..] == params[k..] && args[k - 1..][1..] == args[k..];
    assert params[k - 1] in NullLocals(params);
  }

  /** The stores that are left when the parameters from `k` on are bound. */
  lemma {:induction false} PrologueRest(im: Image, params: seq<string>, args: seq<Value>, k: nat, at: nat, g: Site,
      w: World)
    requires |params| == |args| && k <= |params| && PrologueAt(im.code(g.blob), at, params[..k])
    ensures Reaches(im, At(PushAll(g, args[..k]), at, State(LocalScope(PartlyBound(params, args, k)), w)),
                    At(g, at + 9 * k, State(LocalScope(PartlyBound(params, args, 0)), w)))
    decreases k
  {
    hide Reaches, Steps, InstrAt, PartlyBound;
    var c := At(PushAll(g, args[..k]), at, State(LocalScope(PartlyBound(params, args, k)), w));
    ReachesSelf(im, c);
    if k == 0 {
      PushSplit(g, [], []);
      assert args[..0] == [];
    } else {
      assert params[..k][k - 1] == params[k - 1] && params[..k][..k - 1] == params[..k - 1];
      assert args[..k] == args[..k - 1] + [args[k - 1]];
      PartlyBoundStep(params, args, k);
      PushSplit(g, args[..k - 1], [args[k - 1]]);
      var g1, st := PushAll(g, args[..k - 1]), State(LocalScope(PartlyBound(params, args, k)), w);
      RunStore(im, c, g1, args[k - 1], at, st, params[k - 1]);
      PrologueRest(im, params, args, k - 1, at + 9, g, w);
      ReachesTrans(im, c, At(g1, at + 9, BindName(params[k - 1], args[k - 1], st)),
                   At(g, at + 9 * k, State(LocalScope(PartlyBound(params, args, 0)), w)));
    }
  }

  // ---- statements ----

  /** The place of a construct: its bytes, where its breaks go, the protected regions
      inside it, and whether it leaves the stack as it found it. */
  datatype Spot = Spot(at: nat, size: nat, brk: nat, rs: set<Region>, tidy: bool)

  function StmtSpot(s: Stmt, at: nat, brk: nat): Spot {
    Spot(at, SizeStmt(s), brk, Regions(s, at), Tidy(s))
  }

  function BlockSpot(ss: seq<Stmt>, at: nat, brk: nat): Spot {
    Spot(at, SizeBlock(ss), brk, BlockRegions(ss, at), BlockTidy(ss))
  }

  function ChainSpot(ch: Chain, at: nat, brk: nat): Spot {
    Spot(at, SizeChain(ch), brk, ChainRegions(ch, at), ChainTidy(ch))
  }

  function CasesSpot(cases: seq<Case>, at: nat, brk: nat): Spot {
    Spot(at, SizeCases(cases), brk, CaseRegions(cases, at), CasesTidy(cases))
  }

  ghost predicate StmtPost(im: Image, g: Site, c: Config, sp: Spot, fuel: nat,
                           r: StmtResult, junk: seq<Value>, stale: seq<Mon>, pc: nat) {
    && From(stale, sp.rs)
    && match r
       case Normal(st) => (sp.tidy ==> junk == []) && Reaches(im, c, At(Grow(g, junk, stale), sp.at + sp.size, st))
       case Broke(st) => (sp.tidy ==> junk == []) && Reaches(im, c, At(Grow(g, junk, stale), sp.brk, st))
       case Returned(v, st) => Reaches(im, c, Leave(v, g.callers, st.w))
       case Faulted(x, st) =>
         && sp.at <= pc < sp.at + sp.size
         && Outside(pc, sp.rs)
         && Reaches(im, c, RaiseAt(Grow(g, junk, stale), x, pc, st))
       case OutOfFuel => Alive(im, c, fuel)
  }

  /** `inner` is a part of `outer` that meets none of its other protected regions. */
  ghost predicate PartOf(inner: Spot, outer: Spot) {
    && outer.at <= inner.at && inner.at + inner.size <= outer.at + outer.size
    && inner.rs <= outer.rs
    && (forall r | r in outer.rs :: r in inner.rs || r.1 <= inner.at || inner.at + inner.size <= r.0)
    && (outer.tidy ==> inner.tidy)
  }

  lemma GrowTwice(g: Site, j: seq<Value>, s: seq<Mon>, j1: seq<Value>, s1: seq<Mon>)
    ensures Grow(Grow(g, j, s), j1, s1) == Grow(g, j + j1, s + s1)
    ensures Grow(g, [], []) == g
  {
    assert (g.stack + j) + j1 == g.stack + (j + j1) && g.stack + [] == g.stack;
    assert (g.mons + s) + s1 == g.mons + (s + s1) && g.mons + [] == g.mons;
  }

  /** What a part does, once the machine has come to it, the whole does. A part that
      ends normally must be the last one. */
  lemma StmtAfter(im: Image, g: Site, j: seq<Value>, s: seq<Mon>, c: Config, d: Config, inner: Spot, outer: Spot,
      fuel: nat, r: StmtResult, junk: seq<Value>, stale: seq<Mon>, pc: nat)
    requires Reaches(im, c, d) && StmtPost(im, Grow(g, j, s), d, inner, fuel, r, junk, stale, pc)
    requires From(s, outer.rs) && PartOf(inner, outer) && (outer.tidy ==> j == [])
    requires r.Normal? ==> inner.at + inner.size == outer.at + outer.size
    requires r.Broke? ==> inner.brk == outer.brk
    ensures StmtPost(im, g, c, outer, fuel, r, j + junk, s + stale, pc)
  {
    GrowTwice(g, j, s, junk, stale);
    match r
    case Normal(st) => ReachesTrans(im, c, d, At(Grow(g, j + junk, s + stale), outer.at + outer.size, st));
    case Broke(st) => ReachesTrans(im, c, d, At(Grow(g, j + junk, s + stale), outer.brk, st));
    case Returned(v, st) => ReachesTrans(im, c, d, Leave(v, g.callers, st.w));
    case Faulted(x, st) => ReachesTrans(im, c, d, RaiseAt(Grow(g, j + junk, s + stale), x, pc, st));
    case OutOfFuel => AliveBefore(im, c, d, fuel);
  }

  ghost predicate ClearOf(from: nat, size: nat, sp: Spot) {
    && sp.at <= from && from + size <= sp.at + sp.size
    && forall r | r in sp.rs :: r.1 <= from || from + size <= r.0
  }

  /** An expression of a statement that does not end in a value ends the statement. */
  lemma ExprEnds(im: Image, g: Site, c: Config, at: nat, size: nat, sp: Spot, fuel: nat, r: ExprResult,
      junk: seq<Value>, pc: nat)
    requires !r.Val? && ExprPost(im, g, c, at, size, fuel, r, junk, pc) && ClearOf(at, size, sp)
    ensures StmtPost(im, g, c, sp, fuel, Lift(r), junk, [], pc)
  {
    assert Grow(g, junk, []) == PushAll(g, junk) by { assert g.mons + [] == g.mons; }
  }

  lemma NormalEnd(im: Image, g: Site, c: Config, sp: Spot, fuel: nat, st: State)
    requires Reaches(im, c, At(g, sp.at + sp.size, st))
    ensures StmtPost(im, g, c, sp, fuel, Normal(st), [], [], 0)
  {
    GrowTwice(g, [], [], [], []);
  }

  lemma FaultEnd(im: Image, g: Site, c: Config, sp: Spot, fuel: nat, x: Exn, junk: seq<Value>, pc: nat, st: State)
    requires Reaches(im, c, RaiseAt(PushAll(g, junk), x, pc, st)) && sp.at <= pc < sp.at + sp.size && Outside(pc, sp.rs)
    ensures StmtPost(im, g, c, sp, fuel, Faulted(x, st), junk, [], pc)
  {
    assert Grow(g, junk, []) == PushAll(g, junk) by { assert g.mons + [] == g.mons; }
  }

  // ---- assignment ----

  lemma RunTarget(im: Image, c: Config, g: Site, t: Target, v: Value, pc: nat, st: State)
    requires TargetAt(im.code(g.blob), pc, t) && Reaches(im, c, At(Push1(g, v), pc, st))
    ensures Reaches(im, c, At(g, pc + SizeTarget(t), BindTarget(t, v, st)))
  {
    match t
    case Discard => RunPop(im, c, g, v, pc, st);
    case To(name) => RunStore(im, c, g, v, pc, st, name);
  }

  ghost predicate BindPost(im: Image, g: Site, c: Config, from: nat, to: nat, r: StmtResult, junk: seq<Value>,
      pc: nat) { match r case Normal(st) => Reaches(im, c, At(g, to, st)) case Faulted(x, st) => from <= pc < to
      && Reaches(im, c, RaiseAt(PushAll(g, junk), x, pc, st)) case _ => false }

  /** `target += v` with `v` on the stack. */
  lemma RunAddTo(im: Image, c: Config, g: Site, name: string, v: Value, at: nat, st: State)
    returns (junk: seq<Value>, pc: nat)
    requires BindAt(im.code(g.blob), at, To(name), true) && Reaches(im, c, At(Push1(g, v), at, st))
    ensures BindPost(im, g, c, at, at + 20, AddTo(im.env, name, v, st), junk, pc)
  {
    junk, pc := [v], at;
    RunLoad(im, c, Push1(g, v), at, st, name);
    match LoadName(name, st.sc, st.w)
    case Raised(_) =>
    case Ok(old_) =>
      RunSwap(im, c, g, v, old_, at + 9, st);
      RunDo2(im, c, g, old_, v, at + 10, st, Add);
      junk, pc := [], at + 10;
      PushSplit(g, [], []);
      match ApplyPrim(im.env, Binary(Add), [old_, v], st) {
        case Val(sum, st1) => RunStore(im, c, g, sum, at + 11, st1, name);
        case _ =>
      }
  }

  lemma {:induction false} RunBinds(im: Image, c: Config, g: Site, ts: seq<Target>, addAssign: bool, vs: seq<Value>,
      at: nat, st: State)
    returns (junk: seq<Value>, pc: nat)
    requires |ts| == |vs| && BindsAt(im.code(g.blob), at, ts, addAssign)
    requires Reaches(im, c, At(PushAll(g, Reverse(vs)), at, st))
    ensures BindPost(im, g, c, at, at + SizeBinds(ts, addAssign), BindAll(im.env, ts, addAssign, vs, st), junk, pc)
    decreases |ts|
  {
    hide Reaches, InstrAt, SizeTarget;
    junk, pc := [], at;
    if ts == [] {
      PushSplit(g, [], []);
    } else {
      var below := Reverse(vs[1..]);
      var g1 := PushAll(g, below);
      PushSplit(g, below, [vs[0]]);
      if addAssign && ts[0].To? {
        junk, pc := RunAddTo(im, c, g1, ts[0].name, vs[0], at, st);
        PushSplit(g, below, junk);
        junk := below + junk;
        match AddTo(im.env, ts[0].name, vs[0], st) {
          case Normal(st1) => junk, pc := RunBinds(im, c, g, ts[1..], addAssign, vs[1..], at + 20, st1);
          case _ =>
        }
      } else {
        RunTarget(im, c, g1, ts[0], vs[0], at, st);
        junk, pc := RunBinds(im, c, g, ts[1..], addAssign, vs[1..], at + SizeTarget(ts[0]),
          BindTarget(ts[0], vs[0], st));
      }
    }
  }

  /** Binding ends the assignment. */
  lemma BindEnds(im: Image, g: Site, c: Config, from: nat, sp: Spot, fuel: nat, r: StmtResult, junk: seq<Value>,
      pc: nat)
    requires BindPost(im, g, c, from, sp.at + sp.size, r, junk, pc) && sp.at <= from && sp.rs == {}
    ensures StmtPost(im, g, c, sp, fuel, r, if r.Normal? then [] else junk, [], pc)
  {
    match r
    case Normal(st) => NormalEnd(im, g, c, sp, fuel, st);
    case Faulted(x, st) => FaultEnd(im, g, c, sp, fuel, x, junk, pc, st);
  }

  /** `name += value`: the old value waits on the stack while the right-hand side runs. */
  lemma {:induction false} SimAddAssign(im: Image, s: Stmt, g: Site, at: nat, brk: nat, st: State, fuel: nat)
    returns (junk: seq<Value>, pc: nat)
    requires s.Assign? && s.addAssign && |s.targets| == 1 && s.targets[0].To?
    requires Loaded(im) && WfStmt(s) && StmtAt(im.code(g.blob), at, s, brk)
    ensures StmtPost(im, g, At(g, at, st), StmtSpot(s, at, brk), fuel, ExecAssign(im.env, s, st, |g.callers|, fuel),
      junk, [], pc)
    decreases fuel, s, 0, 1
  {
    var c, sp, name := At(g, at, st), StmtSpot(s, at, brk), s.targets[0].name;
    junk, pc := [], at;
    ReachesSelf(im, c);
    RunLoad(im, c, g, at, st, name);
    match LoadName(name, st.sc, st.w)
    case Raised(x) =>
      PushSplit(g, [], []);
      FaultEnd(im, g, c, sp, fuel, x, junk, pc, st);
    case Ok(old_) => junk, pc := SimAddend(im, c, s, g, at, brk, old_, st, fuel);
  }

  /** `name += value` once the old value is read. */
  lemma {:induction false} SimAddend(im: Image, c: Config, s: Stmt, g: Site, at: nat, brk: nat, old_: Value, st: State,
      fuel: nat)
    returns (junk: seq<Value>, pc: nat)
    requires s.Assign? && s.addAssign && |s.targets| == 1 && s.targets[0].To?
    requires Loaded(im) && WfStmt(s) && StmtAt(im.code(g.blob), at, s, brk)
    requires Reaches(im, c, At(Push1(g, old_), at + 9, st))
    ensures StmtPost(im, g, c, StmtSpot(s, at, brk), fuel,
      AddResult(im.env, s, old_, Eval(im.env, s.value, st, |g.callers|, fuel)), junk, [], pc)
    decreases fuel, s, 0, 0
  {
    hide Loaded, Reaches, StmtPost, Eval, ExprAt, SizeExpr;
    var g1, r := Push1(g, old_), Eval(im.env, s.value, st, |g.callers|, fuel);
    junk, pc := SimExpr(im, s.value, g1, at + 9, st, fuel);
    ExprAfter(im, g1, c, At(g1, at + 9, st), at, 9 + SizeExpr(s.value), at + 9, SizeExpr(s.value), fuel, r, junk, pc);
    if r.Val? {
      junk, pc := [], at + 9 + SizeExpr(s.value);
      RunAddStore(im, c, s, g, at, brk, old_, r.v, r.st, fuel);
    } else {
      AddendEnds(im, c, s, g, at, brk, old_, r, junk, pc, fuel);
      junk := [old_] + junk;
    }
  }

  lemma AddendEnds(im: Image, c: Config, s: Stmt, g: Site, at: nat, brk: nat, old_: Value, r: ExprResult,
                   junk: seq<Value>, pc: nat, fuel: nat)
    requires s.Assign? && s.addAssign && |s.targets| == 1 && s.targets[0].To? && !r.Val?
    requires ExprPost(im, Push1(g, old_), c, at, 9 + SizeExpr(s.value), fuel, r, junk, pc)
    ensures StmtPost(im, g, c, StmtSpot(s, at, brk), fuel, Lift(r), [old_] + junk, [], pc)
  {
    PushSplit(g, [old_], junk);
    if r.Fault? {
      FaultEnd(im, g, c, StmtSpot(s, at, brk), fuel, r.exn, [old_] + junk, pc, r.st);
    }
  }

  /** The end of `name += value`: add and store. */
  lemma RunAddStore(im: Image, c: Config, s: Stmt, g: Site, at: nat, brk: nat, a: Value, b: Value, st: State, fuel: nat)
    requires s.Assign? && s.addAssign && |s.targets| == 1 && s.targets[0].To? && StmtAt(im.code(g.blob), at, s, brk)
    requires Reaches(im, c, At(Push1(Push1(g, a), b), at + 9 + SizeExpr(s.value), st))
    ensures StmtPost(im, g, c, StmtSpot(s, at, brk), fuel,
                     match ApplyPrim(im.env, Binary(Add), [a, b], st)
                     case Val(sum, st1) => Normal(BindName(s.targets[0].name, sum, st1))
                     case r => Lift(r), [], [], at + 9 + SizeExpr(s.value))
  {
    var sp, pc := StmtSpot(s, at, brk), at + 9 + SizeExpr(s.value);
    RunDo2(im, c, g, a, b, pc, st, Add);
    PushSplit(g, [], []);
    match ApplyPrim(im.env, Binary(Add), [a, b], st)
    case Val(sum, st1) =>
      RunStore(im, c, g, sum, pc + 1, st1, s.targets[0].name);
      NormalEnd(im, g, c, sp, fuel, BindName(s.targets[0].name, sum, st1));
    case Fault(x, st1) => FaultEnd(im, g, c, sp, fuel, x, [], pc, st1);
  }

  lemma {:induction false} SimAssign(im: Image, s: Stmt, g: Site, at: nat, brk: nat, st: State, fuel: nat)
    returns (junk: seq<Value>, pc: nat)
    requires s.Assign? && Loaded(im) && WfStmt(s) && StmtAt(im.code(g.blob), at, s, brk)
    ensures StmtPost(im, g, At(g, at, st), StmtSpot(s, at, brk), fuel, ExecAssign(im.env, s, st, |g.callers|, fuel),
      junk, [], pc)
    decreases fuel, s, 0, 2
  {
    hide Loaded, Reaches, Eval, ExprAt, BindValue, StmtPost;
    if s.addAssign && |s.targets| == 1 && s.targets[0].To? {
      junk, pc := SimAddAssign(im, s, g, at, brk, st, fuel);
    } else {
      var c, sp := At(g, at, st), StmtSpot(s, at, brk);
      var r := Eval(im.env, s.value, st, |g.callers|, fuel);
      junk, pc := SimExpr(im, s.value, g, at, st, fuel);
      if r.Val? {
        junk, pc := RunBindValue(im, c, s, g, at, brk, r.v, r.st, fuel);
      } else {
        ExprEnds(im, g, c, at, SizeExpr(s.value), sp, fuel, r, junk, pc);
      }
    }
  }

  /** Bind the value of an assignment whose old values are read after it. */
  lemma RunBindValue(im: Image, c: Config, s: Stmt, g: Site, at: nat, brk: nat, v: Value, st: State, fuel: nat)
    returns (junk: seq<Value>, pc: nat)
    requires s.Assign? && !(s.addAssign && |s.targets| == 1 && s.targets[0].To?)
    requires StmtAt(im.code(g.blob), at, s, brk) && Reaches(im, c, At(Push1(g, v), at + SizeExpr(s.value), st))
    ensures StmtPost(im, g, c, StmtSpot(s, at, brk), fuel, BindValue(im.env, s, v, st), junk, [], pc)
  {
    hide Reaches, InstrAt, BindAll, BindTarget, ExprAt;
    var sp, mid := StmtSpot(s, at, brk), at + SizeExpr(s.value);
    junk, pc := [], mid;
    if |s.targets| == 1 {
      RunTarget(im, c, g, s.targets[0], v, mid, st);
      NormalEnd(im, g, c, sp, fuel, BindTarget(s.targets[0], v, st));
    } else {
      RunUnpack(im, c, g, v, mid, st, |s.targets|);
      PushSplit(g, [], []);
      match Unpacked(im.env, v, |s.targets|, st.w.heap) {
        case None => FaultEnd(im, g, c, sp, fuel, UnpackFault(), junk, pc, st);
        case Some(vs) =>
          junk, pc := RunBinds(im, c, g, s.targets, s.addAssign, vs, mid + 2, st);
          var r := BindAll(im.env, s.targets, s.addAssign, vs, st);
          BindEnds(im, g, c, mid + 2, sp, fuel, r, junk, pc);
          junk := if r.Normal? then [] else junk;
      }
    }
  }

  // ---- control flow ----

  lemma BlockStmt(im: Image, s: Stmt, g: Site, at: nat, brk: nat, st: State, fuel: nat)
    requires s.Block? && WfStmt(s) && StmtAt(im.code(g.blob), at, s, brk)
    ensures WfBlock(s.body) && BlockAt(im.code(g.blob), at, s.body, brk)
      && StmtSpot(s, at, brk) == BlockSpot(s.body, at, brk)
    ensures Exec(im.env, s, st, |g.callers|, fuel) == ExecBlock(im.env, s.body, st, |g.callers|, fuel)
  {
  }

  lemma ChainStmt(im: Image, s: Stmt, g: Site, at: nat, brk: nat, st: State, fuel: nat)
    requires s.If? && WfStmt(s) && StmtAt(im.code(g.blob), at, s, brk)
    ensures WfChain(s.chain) && ChainAt(im.code(g.blob), at, s.chain, at + SizeChain(s.chain), brk)
    ensures StmtSpot(s, at, brk) == ChainSpot(s.chain, at, brk)
    ensures Exec(im.env, s, st, |g.callers|, fuel) == ExecChain(im.env, s.chain, st, |g.callers|, fuel)
  {
  }

  lemma {:induction false} SimStmt(im: Image, s: Stmt, g: Site, at: nat, brk: nat, st: State, fuel: nat)
    returns (junk: seq<Value>, stale: seq<Mon>, pc: nat)
    requires Loaded(im) && WfStmt(s) && StmtAt(im.code(g.blob), at, s, brk)
    ensures StmtPost(im, g, At(g, at, st), StmtSpot(s, at, brk), fuel, Exec(im.env, s, st, |g.callers|, fuel), junk,
      stale, pc)
    decreases fuel, s, 1
  {
    hide *;
    stale := [];
    if s.Block? {
      BlockStmt(im, s, g, at, brk, st, fuel);
      junk, stale, pc := SimBlock(im, s.body, g, at, brk, st, fuel);
    } else if s.If? {
      ChainStmt(im, s, g, at, brk, st, fuel);
      junk, stale, pc := SimChain(im, s.chain, g, at, at + SizeChain(s.chain), brk, st, fuel);
    } else if s.Loop? || s.Match? || s.Monitor? {
      junk, stale, pc := SimCompound(im, s, g, at, brk, st, fuel);
    } else {
      junk, pc := SimSimple(im, s, g, at, brk, st, fuel);
    }
  }

  lemma {:induction false} SimCompound(im: Image, s: Stmt, g: Site, at: nat, brk: nat, st: State, fuel: nat)
    returns (junk: seq<Value>, stale: seq<Mon>, pc: nat)
    requires s.Loop? || s.Match? || s.Monitor?
    requires Loaded(im) && WfStmt(s) && StmtAt(im.code(g.blob), at, s, brk)
    ensures StmtPost(im, g, At(g, at, st), StmtSpot(s, at, brk), fuel, Exec(im.env, s, st, |g.callers|, fuel), junk,
      stale, pc)
    decreases fuel, s, 0, 3
  {
    hide Loaded, Reaches, StmtPost, ExecLoop, StmtAt, WfStmt, StmtSpot;
    match s
    case Loop(_, _) => junk, stale, pc := SimLoop(im, s, g, at, brk, st, fuel);
    case Match(_, _) => junk, stale, pc := SimMatch(im, s, g, at, brk, st, fuel);
    case Monitor(_, _, _) => junk, stale, pc := SimMonitor(im, s, g, at, brk, st, fuel);
  }

  lemma SimBreak(im: Image, s: Stmt, g: Site, at: nat, brk: nat, st: State, fuel: nat)
    requires s.Break? && Loaded(im) && StmtAt(im.code(g.blob), at, s, brk)
    ensures StmtPost(im, g, At(g, at, st), StmtSpot(s, at, brk), fuel, Broke(st), [], [], 0)
  {
    ReachesSelf(im, At(g, at, st));
    RunJmp(im, At(g, at, st), g, at, st, brk);
    GrowTwice(g, [], [], [], []);
  }

  lemma {:induction false} SimSimple(im: Image, s: Stmt, g: Site, at: nat, brk: nat, st: State, fuel: nat)
    returns (junk: seq<Value>, pc: nat)
    requires s.Assign? || s.ExprStmt? || s.Return? || s.Break?
    requires Loaded(im) && WfStmt(s) && StmtAt(im.code(g.blob), at, s, brk)
    ensures StmtPost(im, g, At(g, at, st), StmtSpot(s, at, brk), fuel, Exec(im.env, s, st, |g.callers|, fuel), junk, [],
      pc)
    decreases fuel, s, 0, 3
  {
    hide Loaded, Reaches, StmtPost, ExecAssign, StmtAt, WfStmt, StmtSpot;
    junk, pc := [], 0;
    if s.Assign? {
      junk, pc := SimAssign(im, s, g, at, brk, st, fuel);
    } else if s.Break? {
      SimBreak(im, s, g, at, brk, st, fuel);
    } else {
      junk, pc := SimValueStmt(im, s, s.expr, g, at, brk, st, fuel);
    }
  }

  /** Expression statements and returns. */
  lemma {:induction false} SimValueStmt(im: Image, s: Stmt, e: Expr, g: Site, at: nat, brk: nat, st: State, fuel: nat)
    returns (junk: seq<Value>, pc: nat)
    requires s == ExprStmt(e) || s == Return(e)
    requires Loaded(im) && WfStmt(s) && StmtAt(im.code(g.blob), at, s, brk)
    ensures StmtPost(im, g, At(g, at, st), StmtSpot(s, at, brk), fuel, Exec(im.env, s, st, |g.callers|, fuel), junk, [],
      pc)
    decreases fuel, s, 0, 0
  {
    hide Loaded, Reaches, Eval, ExprAt;
    var c, sp := At(g, at, st), StmtSpot(s, at, brk);
    var r := Eval(im.env, e, st, |g.callers|, fuel);
    junk, pc := SimExpr(im, e, g, at, st, fuel);
    if r.Val? {
      junk := [];
      if s.ExprStmt? {
        RunPop(im, c, g, r.v, at + SizeExpr(e), r.st);
        NormalEnd(im, g, c, sp, fuel, r.st);
      } else {
        RunRet(im, c, g, r.v, at + SizeExpr(e), r.st);
      }
    } else {
      ExprEnds(im, g, c, at, SizeExpr(e), sp, fuel, r, junk, pc);
    }
  }

  lemma BlockParts(ss: seq<Stmt>, at: nat, brk: nat)
    requires ss != []
    ensures PartOf(StmtSpot(ss[0], at, brk), BlockSpot(ss, at, brk))
    ensures PartOf(BlockSpot(ss[1..], at + SizeStmt(ss[0]), brk), BlockSpot(ss, at, brk))
  {
    RegionsWithin(ss[0], at);
    BlockRegionsWithin(ss[1..], at + SizeStmt(ss[0]));
  }

  lemma {:induction false} SimBlock(im: Image, ss: seq<Stmt>, g: Site, at: nat, brk: nat, st: State, fuel: nat)
    returns (junk: seq<Value>, stale: seq<Mon>, pc: nat)
    requires Loaded(im) && WfBlock(ss) && BlockAt(im.code(g.blob), at, ss, brk)
    ensures StmtPost(im, g, At(g, at, st), BlockSpot(ss, at, brk), fuel, ExecBlock(im.env, ss, st, |g.callers|, fuel),
      junk, stale, pc)
    decreases fuel, ss, 0
  {
    hide Loaded, Reaches, StmtAt, WfStmt, SizeStmt;
    var c, sp := At(g, at, st), BlockSpot(ss, at, brk);
    junk, stale, pc := [], [], 0;
    ReachesSelf(im, c);
    if ss == [] {
      NormalEnd(im, g, c, sp, fuel, st);
    } else {
      BlockParts(ss, at, brk);
      junk, stale, pc := SimStmt(im, ss[0], g, at, brk, st, fuel);
      var r := Exec(im.env, ss[0], st, |g.callers|, fuel);
      if r.Normal? {
        var mid := at + SizeStmt(ss[0]);
        var j, s, p := SimBlock(im, ss[1..], Grow(g, junk, stale), mid, brk, r.st, fuel);
        StmtAfter(im, g, junk, stale, c, At(Grow(g, junk, stale), mid, r.st), BlockSpot(ss[1..], mid, brk), sp, fuel,
                  ExecBlock(im.env, ss[1..], r.st, |g.callers|, fuel), j, s, p);
        junk, stale, pc := junk + j, stale + s, p;
      } else {
        GrowTwice(g, [], [], [], []);
        StmtAfter(im, g, [], [], c, c, StmtSpot(ss[0], at, brk), sp, fuel, r, junk, stale, pc);
        assert [] + junk == junk && [] + stale == stale;
      }
    }
  }

  lemma ChainParts(ch: Chain, at: nat, brk: nat)
    requires ch.Elif?
    ensures ClearOf(at, SizeExpr(ch.cond), ChainSpot(ch, at, brk))
    ensures PartOf(BlockSpot(ch.body, ArmStart(ch, at), brk), ChainSpot(ch, at, brk))
    ensures PartOf(ChainSpot(ch.rest, NextArm(ch, at), brk), ChainSpot(ch, at, brk))
    ensures at + SizeChain(ch) == NextArm(ch, at) + SizeChain(ch.rest)
  {
    BlockRegionsWithin(ch.body, ArmStart(ch, at));
    ChainRegionsWithin(ch.rest, NextArm(ch, at));
  }

  /** A block inside another construct, reached with nothing left behind, after which
      the machine jumps to the construct's end. */
  lemma {:induction false} SimArm(im: Image, c: Config, ss: seq<Stmt>, g: Site, at: nat, brk: nat, end: nat, st: State,
      sp: Spot, fuel: nat)
    returns (junk: seq<Value>, stale: seq<Mon>, pc: nat)
    requires Loaded(im) && WfBlock(ss) && BlockAt(im.code(g.blob), at, ss, brk)
    requires InstrAt(im.code(g.blob), at + SizeBlock(ss), Jmp(end)) && Reaches(im, c, At(g, at, st))
    requires PartOf(BlockSpot(ss, at, brk), sp) && end == sp.at + sp.size && brk == sp.brk
    ensures StmtPost(im, g, c, sp, fuel, ExecBlock(im.env, ss, st, |g.callers|, fuel), junk, stale, pc)
    decreases fuel, ss, 1
  {
    hide Loaded, Reaches, Alive, ExecBlock, BlockAt, InstrAt, WfBlock, BlockRegions;
    junk, stale, pc := SimBlock(im, ss, g, at, brk, st, fuel);
    var r := ExecBlock(im.env, ss, st, |g.callers|, fuel);
    GrowTwice(g, [], [], [], []);
    if r.Normal? {
      var g1 := Grow(g, junk, stale);
      ReachesTrans(im, c, At(g, at, st), At(g1, at + SizeBlock(ss), r.st));
      RunJmp(im, c, g1, at + SizeBlock(ss), r.st, end);
    } else {
      StmtAfter(im, g, [], [], c, At(g, at, st), BlockSpot(ss, at, brk), sp, fuel, r, junk, stale, pc);
      assert [] + junk == junk && [] + stale == stale;
    }
  }

  lemma {:induction false} SimChain(im: Image, ch: Chain, g: Site, at: nat, end: nat, brk: nat, st: State, fuel: nat)
    returns (junk: seq<Value>, stale: seq<Mon>, pc: nat)
    requires Loaded(im) && WfChain(ch) && ChainAt(im.code(g.blob), at, ch, end, brk) && end == at + SizeChain(ch)
    ensures StmtPost(im, g, At(g, at, st), ChainSpot(ch, at, brk), fuel, ExecChain(im.env, ch, st, |g.callers|, fuel),
      junk, stale, pc)
    decreases fuel, ch, 0
  {
    hide Loaded, Reaches, StmtPost, Eval, ExecBlock, BlockAt, TestAt, InstrAt;
    match ch
    case Else(els) => junk, stale, pc := SimBlock(im, els, g, at, brk, st, fuel);
    case Elif(cond, hint, body, rest) =>
      var c, sp := At(g, at, st), ChainSpot(ch, at, brk);
      var r := Eval(im.env, cond, st, |g.callers|, fuel);
      stale := [];
      junk, pc := SimExpr(im, cond, g, at, st, fuel);
      if r.Val? {
        junk, stale, pc := SimTested(im, c, ch, g, at, end, brk, r.v, r.st, fuel);
      } else {
        ChainParts(ch, at, brk);
        ExprEnds(im, g, c, at, SizeExpr(cond), sp, fuel, r, junk, pc);
      }
  }

  /** The rest of an `if` chain once its first condition is `v`. */
  lemma {:induction false} SimTested(im: Image, c: Config, ch: Chain, g: Site, at: nat, end: nat, brk: nat, v: Value,
      st: State, fuel: nat)
    returns (junk: seq<Value>, stale: seq<Mon>, pc: nat)
    requires ch.Elif? && Loaded(im) && WfChain(ch) && ChainAt(im.code(g.blob), at, ch, end, brk)
      && end == at + SizeChain(ch)
    requires Reaches(im, c, At(Push1(g, v), at + SizeExpr(ch.cond), st))
    ensures StmtPost(im, g, c, ChainSpot(ch, at, brk), fuel,
                     if IsTruthy(v) then ExecBlock(im.env, ch.body, st, |g.callers|, fuel)
                     else ExecChain(im.env, ch.rest, st, |g.callers|, fuel), junk, stale, pc)
    decreases fuel, ch, 0, 1
  {
    hide Loaded, Reaches, StmtPost, ExecChain, ExecBlock, BlockAt, ExprAt, SizeChain;
    RunTest(im, c, g, at + SizeExpr(ch.cond), ch.hint, v, st, NextArm(ch, at));
    if IsTruthy(v) {
      junk, stale, pc := SimTaken(im, c, ch, g, at, end, brk, st, fuel);
    } else {
      junk, stale, pc := SimSkipped(im, c, ch, g, at, end, brk, st, fuel);
    }
  }

  lemma {:induction false} SimTaken(im: Image, c: Config, ch: Chain, g: Site, at: nat, end: nat, brk: nat, st: State,
      fuel: nat)
    returns (junk: seq<Value>, stale: seq<Mon>, pc: nat)
    requires ch.Elif? && Loaded(im) && WfChain(ch) && ChainAt(im.code(g.blob), at, ch, end, brk)
      && end == at + SizeChain(ch)
    requires Reaches(im, c, At(g, ArmStart(ch, at), st))
    ensures StmtPost(im, g, c, ChainSpot(ch, at, brk), fuel, ExecBlock(im.env, ch.body, st, |g.callers|, fuel), junk,
      stale, pc)
    decreases fuel, ch, 0, 0
  {
    hide Loaded, Reaches, StmtPost, ExecBlock, BlockAt, InstrAt;
    ChainParts(ch, at, brk);
    junk, stale, pc := SimArm(im, c, ch.body, g, ArmStart(ch, at), brk, end, st, ChainSpot(ch, at, brk), fuel);
  }

  lemma {:induction false} SimSkipped(im: Image, c: Config, ch: Chain, g: Site, at: nat, end: nat, brk: nat, st: State,
      fuel: nat)
    returns (junk: seq<Value>, stale: seq<Mon>, pc: nat)
    requires ch.Elif? && Loaded(im) && WfChain(ch) && ChainAt(im.code(g.blob), at, ch, end, brk)
      && end == at + SizeChain(ch)
    requires Reaches(im, c, At(g, NextArm(ch, at), st))
    ensures StmtPost(im, g, c, ChainSpot(ch, at, brk), fuel, ExecChain(im.env, ch.rest, st, |g.callers|, fuel), junk,
      stale, pc)
    decreases fuel, ch, 0, 0
  {
    hide Loaded, Reaches, StmtPost, ExecChain, ExecBlock, BlockAt, ExprAt;
    var next := NextArm(ch, at);
    ChainParts(ch, at, brk);
    junk, stale, pc := SimChain(im, ch.rest, g, next, end, brk, st, fuel);
    GrowTwice(g, [], [], [], []);
    StmtAfter(im, g, [], [], c, At(g, next, st), ChainSpot(ch.rest, next, brk), ChainSpot(ch, at, brk), fuel,
              ExecChain(im.env, ch.rest, st, |g.callers|, fuel), junk, stale, pc);
    assert [] + junk == junk && [] + stale == stale;
  }

  lemma RunTest(im: Image, c: Config, g: Site, at: nat, hint: Hint, v: Value, st: State, next: nat)
    requires TestAt(im.code(g.blob), at, hint, next) && Reaches(im, c, At(Push1(g, v), at, st))
    ensures IsTruthy(v) ==> Reaches(im, c, At(g, at + SizeHint(hint) + 5, st))
    ensures !IsTruthy(v) ==> Reaches(im, c, At(g, next, st))
  {
    RunHint(im, c, Push1(g, v), at, st, hint);
    RunIfFalse(im, c, g, v, at + SizeHint(hint), st, next);
  }

  // ---- loops ----

  lemma LoopParts(s: Stmt, at: nat, brk: nat)
    requires s.Loop?
    ensures s.cond.Some? ==> ClearOf(at, SizeExpr(s.cond.value), StmtSpot(s, at, brk))
    ensures PartOf(BlockSpot(s.body, at + SizeCond(s.cond), at + SizeStmt(s)), StmtSpot(s, at, brk))
    ensures PartOf(StmtSpot(s, at, brk), StmtSpot(s, at, brk))
  {
    BlockRegionsWithin(s.body, at + SizeCond(s.cond));
  }

  lemma {:induction false} SimLoop(im: Image, s: Stmt, g: Site, at: nat, brk: nat, st: State, fuel: nat)
    returns (junk: seq<Value>, stale: seq<Mon>, pc: nat)
    requires s.Loop? && Loaded(im) && WfStmt(s) && StmtAt(im.code(g.blob), at, s, brk)
    ensures StmtPost(im, g, At(g, at, st), StmtSpot(s, at, brk), fuel, ExecLoop(im.env, s, st, |g.callers|, fuel), junk,
      stale, pc)
    decreases fuel, s, 0, 2
  {
    hide Loaded, Reaches, StmtPost, Eval, ExprAt, BlockAt;
    var c, sp := At(g, at, st), StmtSpot(s, at, brk);
    ReachesSelf(im, c);
    if s.cond.None? {
      junk, stale, pc := SimIteration(im, c, s, g, at, brk, st, fuel);
    } else {
      var e := s.cond.value;
      var r := Eval(im.env, e, st, |g.callers|, fuel);
      stale := [];
      LoopParts(s, at, brk);
      junk, pc := SimExpr(im, e, g, at, st, fuel);
      if r.Val? {
        RunIfFalse(im, c, g, r.v, at + SizeExpr(e), r.st, at + SizeStmt(s));
        if IsTruthy(r.v) {
          junk, stale, pc := SimIteration(im, c, s, g, at, brk, r.st, fuel);
        } else {
          junk, pc := [], 0;
          NormalEnd(im, g, c, sp, fuel, r.st);
        }
      } else {
        ExprEnds(im, g, c, at, SizeExpr(e), sp, fuel, r, junk, pc);
      }
    }
  }

  /** An iteration and everything after it. */
  lemma {:induction false} SimIteration(im: Image, c: Config, s: Stmt, g: Site, at: nat, brk: nat, st: State, fuel: nat)
    returns (junk: seq<Value>, stale: seq<Mon>, pc: nat)
    requires s.Loop? && Loaded(im) && WfStmt(s) && StmtAt(im.code(g.blob), at, s, brk)
    requires Reaches(im, c, At(g, at + SizeCond(s.cond), st)) && c.Running?
    ensures StmtPost(im, g, c, StmtSpot(s, at, brk), fuel, LoopBody(im.env, s, st, |g.callers|, fuel), junk, stale, pc)
    decreases fuel, s.body, 1
  {
    hide Loaded, Reaches, Alive, ExecBlock, BlockAt, SizeBlock, InstrAt, CondAt;
    var sp, start, end := StmtSpot(s, at, brk), at + SizeCond(s.cond), at + SizeStmt(s);
    var d, inner := At(g, start, st), BlockSpot(s.body, start, end);
    LoopParts(s, at, brk);
    junk, stale, pc := SimBlock(im, s.body, g, start, end, st, fuel);
    var r := ExecBlock(im.env, s.body, st, |g.callers|, fuel);
    GrowTwice(g, [], [], [], []);
    var g1 := Grow(g, junk, stale);
    match r
    case Normal(st1) =>
      ReachesTrans(im, c, d, At(g1, end - 5, st1));
      var j, t, p := SimNext(im, c, s, g, junk, stale, at, brk, st1, fuel);
      junk, stale, pc := junk + j, stale + t, p;
    case Broke(st1) => ReachesTrans(im, c, d, At(g1, end, st1));
    case _ =>
      StmtAfter(im, g, [], [], c, d, inner, sp, fuel, r, junk, stale, pc);
      assert [] + junk == junk && [] + stale == stale;
  }

  /** From the end of one iteration on. */
  lemma {:induction false} SimNext(im: Image, c: Config, s: Stmt, g: Site, j: seq<Value>, t: seq<Mon>, at: nat,
      brk: nat, st: State, fuel: nat)
    returns (junk: seq<Value>, stale: seq<Mon>, pc: nat)
    requires s.Loop? && Loaded(im) && WfStmt(s) && StmtAt(im.code(g.blob), at, s, brk)
    requires Reaches(im, c, At(Grow(g, j, t), at + SizeStmt(s) - 5, st)) && c.Running?
    requires From(t, Regions(s, at)) && (Tidy(s) ==> j == [])
    ensures StmtPost(im, g, c, StmtSpot(s, at, brk), fuel,
                     if fuel == 0 then OutOfFuel
                       else ExecLoop(im.env, s, st, |g.callers|, fuel - 1), j + junk, t + stale, pc)
    decreases fuel, s.body, 0
  {
    var sp, g1, jmp := StmtSpot(s, at, brk), Grow(g, j, t), at + SizeStmt(s) - 5;
    junk, stale, pc := [], [], 0;
    LoopParts(s, at, brk);
    if fuel == 0 {
      assert j + [] == j && t + [] == t;
    } else {
      RunJmp(im, c, g1, jmp, st, at);
      junk, stale, pc := SimLoop(im, s, g1, at, brk, st, fuel - 1);
      var r := ExecLoop(im.env, s, st, |g.callers|, fuel - 1);
      if r.OutOfFuel? {
        RunJmpAlive(im, g1, jmp, st, at, fuel - 1);
        AliveBefore(im, c, At(g1, jmp, st), fuel);
      } else {
        StmtAfter(im, g, j, t, c, At(g1, at, st), sp, sp, fuel, r, junk, stale, pc);
      }
    }
  }

  // ---- match ----

  /** The scrutinee's copy compared with an arm's member. */
  lemma RunCaseTest(im: Image, c: Config, g: Site, v: Value, at: nat, st: State, arm: Case, next: nat)
    requires CaseTestAt(im.code(g.blob), at, arm, next)
    requires Reaches(im, c, At(Push1(g, v), at, st))
    ensures match ApplyPrim(im.env, Binary(Eq), [v, EnumV(arm.enumName, arm.member)], st)
            case Val(b, st1) =>
              && (IsTruthy(b) ==> Reaches(im, c, At(Push1(g, v), at + 24, st1)))
              && (!IsTruthy(b) ==> Reaches(im, c, At(Push1(g, v), next, st1)))
            case Fault(x, st1) => Reaches(im, c, RaiseAt(Push1(g, v), x, at + 18, st1))
            case Spent => false
  {
    var member := EnumV(arm.enumName, arm.member);
    var g1 := Push1(g, v);
    RunDup(im, c, g, v, at, st);
    RunPush(im, c, Push1(g1, v), at + 1, st, EnumLit(arm.enumName, arm.member));
    RunDo2(im, c, g1, v, member, at + 18, st, Eq);
    match ApplyPrim(im.env, Binary(Eq), [v, member], st)
    case Val(b, st1) => RunIfFalse(im, c, g1, b, at + 19, st1, next);
    case _ =>
  }

  lemma CasesParts(cases: seq<Case>, at: nat, brk: nat)
    requires cases != []
    ensures
      var next := at + 24 + SizeBlock(cases[0].body) + 5;
      && PartOf(BlockSpot(cases[0].body, at + 24, brk), CasesSpot(cases, at, brk))
      && PartOf(CasesSpot(cases[1..], next, brk), CasesSpot(cases, at, brk))
      && Outside(at + 18, CasesSpot(cases, at, brk).rs)
  {
    BlockRegionsWithin(cases[0].body, at + 24);
    CaseRegionsWithin(cases[1..], at + 24 + SizeBlock(cases[0].body) + 5);
  }

  lemma {:induction false} SimCases(im: Image, c: Config, cases: seq<Case>, g: Site, v: Value, at: nat, end: nat,
      brk: nat, st: State, fuel: nat)
    returns (junk: seq<Value>, stale: seq<Mon>, pc: nat)
    requires Loaded(im) && WfCases(cases) && CasesAt(im.code(g.blob), at, cases, end, brk)
      && end == at + SizeCases(cases)
    requires Reaches(im, c, At(Push1(g, v), at, st))
    ensures StmtPost(im, Push1(g, v), c, CasesSpot(cases, at, brk), fuel,
                     ExecCases(im.env, v, cases, st, |g.callers|, fuel), junk, stale, pc)
    decreases fuel, cases, 0
  {
    hide Loaded, Reaches, StmtPost, CaseTestAt, BlockAt, InstrAt, ExecBlock;
    var sp, g1 := CasesSpot(cases, at, brk), Push1(g, v);
    junk, stale, pc := [], [], 0;
    if cases == [] {
      NormalEnd(im, g1, c, sp, fuel, st);
    } else {
      pc := at + 18;
      var next := at + 24 + SizeBlock(cases[0].body) + 5;
      RunCaseTest(im, c, g, v, at, st, cases[0], next);
      var r := ApplyPrim(im.env, Binary(Eq), [v, EnumV(cases[0].enumName, cases[0].member)], st);
      if r.Fault? {
        CasesParts(cases, at, brk);
        PushSplit(g1, [], []);
        FaultEnd(im, g1, c, sp, fuel, r.exn, junk, pc, r.st);
      } else {
        if IsTruthy(r.v) {
          junk, stale, pc := SimChosen(im, c, cases, g, v, at, end, brk, r.st, fuel);
        } else {
          junk, stale, pc := SimRestOfCases(im, c, cases, g, v, next, at, end, brk, r.st, fuel);
        }
      }
    }
  }

  lemma {:induction false} SimChosen(im: Image, c: Config, cases: seq<Case>, g: Site, v: Value, at: nat, end: nat,
      brk: nat, st: State, fuel: nat)
    returns (junk: seq<Value>, stale: seq<Mon>, pc: nat)
    requires cases != [] && Loaded(im) && WfCases(cases) && CasesAt(im.code(g.blob), at, cases, end, brk)
    requires end == at + SizeCases(cases) && Reaches(im, c, At(Push1(g, v), at + 24, st))
    ensures StmtPost(im, Push1(g, v), c, CasesSpot(cases, at, brk), fuel,
                     ExecBlock(im.env, cases[0].body, st, |g.callers|, fuel), junk, stale, pc)
    decreases fuel, cases, 0, 1
  {
    hide Loaded, Reaches, StmtPost, ExecBlock, BlockAt, CaseTestAt, InstrAt;
    CasesParts(cases, at, brk);
    FirstArmLaid(im.code(g.blob), at, cases, end, brk);
    junk, stale, pc := SimArm(im, c, cases[0].body, Push1(g, v), at + 24, brk, end, st, CasesSpot(cases, at, brk),
      fuel);
  }

  lemma FirstArmLaid(c: Code, at: nat, cases: seq<Case>, end: nat, brk: nat)
    requires cases != [] && CasesAt(c, at, cases, end, brk)
    ensures BlockAt(c, at + 24, cases[0].body, brk) && InstrAt(c, at + 24 + SizeBlock(cases[0].body), Jmp(end))
  {
  }

  lemma OtherArmsLaid(c: Code, at: nat, cases: seq<Case>, end: nat, brk: nat, next: nat)
    requires cases != [] && CasesAt(c, at, cases, end, brk) && next == at + 24 + SizeBlock(cases[0].body) + 5
    ensures CasesAt(c, next, cases[1..], end, brk)
  {
  }

  lemma {:induction false} SimRestOfCases(im: Image, c: Config, cases: seq<Case>, g: Site, v: Value, next: nat, at: nat,
      end: nat, brk: nat, st: State, fuel: nat)
    returns (junk: seq<Value>, stale: seq<Mon>, pc: nat)
    requires cases != [] && Loaded(im) && WfCases(cases) && next == at + 24 + SizeBlock(cases[0].body) + 5
    requires CasesAt(im.code(g.blob), at, cases, end, brk) && end == at + SizeCases(cases)
    requires Reaches(im, c, At(Push1(g, v), next, st))
    ensures StmtPost(im, Push1(g, v), c, CasesSpot(cases, at, brk), fuel,
                     ExecCases(im.env, v, cases[1..], st, |g.callers|, fuel), junk, stale, pc)
    decreases fuel, cases, 0, 0
  {
    hide Loaded, Reaches, StmtPost, ExecCases, BlockAt, CaseTestAt, InstrAt;
    var sp := CasesSpot(cases, at, brk);
    CasesParts(cases, at, brk);
    OtherArmsLaid(im.code(g.blob), at, cases, end, brk, next);
    junk, stale, pc := SimCases(im, c, cases[1..], g, v, next, end, brk, st, fuel);
    GrowTwice(Push1(g, v), [], [], [], []);
    ReachesSelf(im, c);
    StmtAfter(im, Push1(g, v), [], [], c, c, CasesSpot(cases[1..], next, brk), sp, fuel,
              ExecCases(im.env, v, cases[1..], st, |g.callers|, fuel), junk, stale, pc);
    assert [] + junk == junk && [] + stale == stale;
  }

  lemma {:induction false} SimMatch(im: Image, s: Stmt, g: Site, at: nat, brk: nat, st: State, fuel: nat)
    returns (junk: seq<Value>, stale: seq<Mon>, pc: nat)
    requires s.Match? && Loaded(im) && WfStmt(s) && StmtAt(im.code(g.blob), at, s, brk)
    ensures StmtPost(im, g, At(g, at, st), StmtSpot(s, at, brk), fuel, Exec(im.env, s, st, |g.callers|, fuel), junk,
      stale, pc)
    decreases fuel, s, 0, 2
  {
    hide Loaded, Reaches, StmtPost, Eval, ExecCases, ExprAt, CasesAt, InstrAt, CasesBreakOut, CaseRegions;
    var c, sp, first := At(g, at, st), StmtSpot(s, at, brk), at + SizeExpr(s.scrutinee);
    var r := Eval(im.env, s.scrutinee, st, |g.callers|, fuel);
    stale := [];
    junk, pc := SimExpr(im, s.scrutinee, g, at, st, fuel);
    CaseRegionsWithin(s.cases, first);
    if r.Val? {
      junk, stale, pc := SimCases(im, c, s.cases, g, r.v, first, first + SizeCases(s.cases), brk, r.st, fuel);
      if !CasesBreakOut(s.cases) {
        CasesNeverBroke(im.env, r.v, s.cases, r.st, |g.callers|, fuel);
      }
      junk := MatchEnds(im, c, s, g, r.v, at, brk, fuel, ExecCases(im.env, r.v, s.cases, r.st, |g.callers|, fuel), junk,
        stale, pc);
    } else {
      ExprEnds(im, g, c, at, SizeExpr(s.scrutinee), sp, fuel, r, junk, pc);
    }
  }

  /** Drop the scrutinee behind the arms. A `break` out of an arm leaves it, and then
      the drop takes something newer: the stack keeps its old part and its size. */
  lemma MatchEnds(im: Image, c: Config, s: Stmt, g: Site, v: Value, at: nat, brk: nat, fuel: nat,
                  r: StmtResult, junk0: seq<Value>, stale: seq<Mon>, pc: nat) returns (junk: seq<Value>)
    requires s.Match? && StmtAt(im.code(g.blob), at, s, brk)
    requires StmtPost(im, Push1(g, v), c, CasesSpot(s.cases, at + SizeExpr(s.scrutinee), brk), fuel, r, junk0, stale,
      pc)
    requires !CasesBreakOut(s.cases) ==> !r.Broke?
    ensures StmtPost(im, g, c, StmtSpot(s, at, brk), fuel, r, junk, stale, pc)
  {
    hide Reaches, Alive, ExprAt, CasesAt, CaseRegions;
    var above, n := [v] + junk0, |junk0|;
    assert Grow(Push1(g, v), junk0, stale) == Grow(g, above, stale) by {
      assert (g.stack + [v]) + junk0 == g.stack + above;
    }
    junk := above;
    if r.Normal? {
      junk := above[..n];
      assert above == junk + [above[n]];
      var g1 := Grow(g, junk, stale);
      assert Push1(g1, above[n]) == Grow(g, above, stale) by {
        assert (g.stack + junk) + [above[n]] == g.stack + above;
      }
      RunPop(im, c, g1, above[n], at + SizeStmt(s) - 1, r.st);
    }
  }

  // ---- monitors ----

  /** The monitor state a protected block runs under. */
  function MonOf(s: Stmt, g: Site, at: nat): Mon
    requires s.Monitor?
  {
    Mon(at + 5, at + 5 + SizeBlock(s.body) + 6, |g.stack|)
  }

  /** The handler found for a fault of the protected block is the block's own: every
      handler above it is stale, and the operand stack is cut back, never padded. */
  lemma {:induction false} DropStaleFinds(mons: seq<Mon>, m: Mon, stale: seq<Mon>, pc: nat)
    requires Covers(m, pc) && forall t | t in stale :: !Covers(t, pc)
    ensures DropStale(mons + [m] + stale, pc) == mons + [m]
    decreases |stale|
  {
    var all := mons + [m] + stale;
    if stale == [] {
      assert all == mons + [m];
    } else {
      assert all[|all| - 1] == stale[|stale| - 1];
      assert all[..|all| - 1] == mons + [m] + stale[..|stale| - 1];
      DropStaleFinds(mons, m, stale[..|stale| - 1], pc);
    }
  }

  lemma Trapped(im: Image, g: Site, m: Mon, junk: seq<Value>, stale: seq<Mon>, x: Exn, pc: nat, st: State)
    requires Covers(m, pc) && m.depth == |g.stack| && forall t | t in stale :: !Covers(t, pc)
    ensures RaiseAt(Grow(Grow(g, [], [m]), junk, stale), x, pc, st) == At(Push1(g, ExnV(x)), m.handler, st)
  {
    DropStaleFinds(g.mons, m, stale, pc);
    assert g.stack + [] == g.stack;
    assert (g.stack + junk)[..|g.stack|] == g.stack;
    assert (g.mons + [m])[..|g.mons|] == g.mons;
  }

  lemma MonitorParts(s: Stmt, g: Site, at: nat, brk: nat)
    requires s.Monitor?
    ensures
      var exit, sp := at + 5 + SizeBlock(s.body), StmtSpot(s, at, brk);
      && PartOf(BlockSpot(s.handler, exit + 15, brk), sp)
      && BlockRegions(s.body, at + 5) <= sp.rs
      && (MonOf(s, g, at).start, MonOf(s, g, at).handler) in sp.rs
  {
    BlockRegionsWithin(s.body, at + 5);
    BlockRegionsWithin(s.handler, at + 5 + SizeBlock(s.body) + 15);
  }

  lemma {:induction false} SimMonitor(im: Image, s: Stmt, g: Site, at: nat, brk: nat, st: State, fuel: nat)
    returns (junk: seq<Value>, stale: seq<Mon>, pc: nat)
    requires s.Monitor? && Loaded(im) && WfStmt(s) && StmtAt(im.code(g.blob), at, s, brk)
    ensures StmtPost(im, g, At(g, at, st), StmtSpot(s, at, brk), fuel, Exec(im.env, s, st, |g.callers|, fuel), junk,
      stale, pc)
    decreases fuel, s, 0, 2
  {
    hide Loaded, Reaches, Alive, StmtPost, BlockAt, SizeBlock, BlockSpot, WfBlock, InstrAt;
    var c, m := At(g, at, st), MonOf(s, g, at);
    var gm, r := Grow(g, [], [m]), ExecBlock(im.env, s.body, st, |g.callers|, fuel);
    ReachesSelf(im, c);
    RunEnter(im, c, g, at, st, m.handler);
    var j, t, p := SimBlock(im, s.body, gm, at + 5, brk, st, fuel);
    if r.Faulted? {
      FaultInBody(im, c, s, g, at, brk, st, fuel, r.exn, r.st, j, t, p);
      junk, stale, pc := SimHandler(im, c, s, g, at, brk, r.exn, r.st, fuel);
    } else {
      stale := BodyEnds(im, c, s, g, at, brk, st, fuel, r, j, t, p);
      junk, pc := j, p;
    }
  }

  lemma FaultInBody(im: Image, c: Config, s: Stmt, g: Site, at: nat, brk: nat, st: State, fuel: nat,
                    x: Exn, st1: State, junk: seq<Value>, stale: seq<Mon>, pc: nat)
    requires s.Monitor? && Reaches(im, c, At(Grow(g, [], [MonOf(s, g, at)]), at + 5, st))
    requires StmtPost(im, Grow(g, [], [MonOf(s, g, at)]), At(Grow(g, [], [MonOf(s, g, at)]), at + 5, st),
                      BlockSpot(s.body, at + 5, brk), fuel, Faulted(x, st1), junk, stale, pc)
    ensures Reaches(im, c, At(Push1(g, ExnV(x)), at + 5 + SizeBlock(s.body) + 6, st1))
  {
    var m := MonOf(s, g, at);
    forall t | t in stale
      ensures !Covers(t, pc)
    {
      assert (t.start, t.handler) in BlockRegions(s.body, at + 5);
    }
    Trapped(im, g, m, junk, stale, x, pc, st1);
    ReachesTrans(im, c, At(Grow(g, [], [m]), at + 5, st), At(Push1(g, ExnV(x)), m.handler, st1));
  }

  /** Trap dispatch: a fault anywhere in a protected block, however many handlers a
      `break` left behind in it, is delivered to the handler of that block, with exactly
      the operands and handlers of the statement's start and the exception on top. */
  lemma TrapReachesHandler(im: Image, s: Stmt, g: Site, at: nat, brk: nat, st: State, fuel: nat)
    requires s.Monitor? && Loaded(im) && WfStmt(s) && StmtAt(im.code(g.blob), at, s, brk)
    requires ExecBlock(im.env, s.body, st, |g.callers|, fuel).Faulted?
    ensures
      var r := ExecBlock(im.env, s.body, st, |g.callers|, fuel);
      Reaches(im, At(g, at, st), At(Push1(g, ExnV(r.exn)), BodyEnd(s, at) + 6, r.st))
  {
    hide Loaded, Reaches, StmtPost, ExecBlock, SizeBlock, BlockAt;
    var c, m := At(g, at, st), MonOf(s, g, at);
    var r := ExecBlock(im.env, s.body, st, |g.callers|, fuel);
    ReachesSelf(im, c);
    RunEnter(im, c, g, at, st, m.handler);
    var j, t, p := SimBlock(im, s.body, Grow(g, [], [m]), at + 5, brk, st, fuel);
    FaultInBody(im, c, s, g, at, brk, st, fuel, r.exn, r.st, j, t, p);
  }

  /** The handler block, from the fault's delivery on. */
  lemma {:induction false} SimHandler(im: Image, c: Config, s: Stmt, g: Site, at: nat, brk: nat, x: Exn, st: State,
      fuel: nat)
    returns (junk: seq<Value>, stale: seq<Mon>, pc: nat)
    requires s.Monitor? && Loaded(im) && WfStmt(s) && StmtAt(im.code(g.blob), at, s, brk)
    requires Reaches(im, c, At(Push1(g, ExnV(x)), at + 5 + SizeBlock(s.body) + 6, st))
    ensures StmtPost(im, g, c, StmtSpot(s, at, brk), fuel,
                     ExecBlock(im.env, s.handler, BindName(s.trap, ExnV(x), st), |g.callers|, fuel), junk, stale, pc)
    decreases fuel, s, 0, 0
  {
    hide Loaded, Reaches, StmtPost, ExecBlock, BlockAt, SizeBlock;
    var sp, start, st1 := StmtSpot(s, at, brk), at + 5 + SizeBlock(s.body) + 15, BindName(s.trap, ExnV(x), st);
    MonitorParts(s, g, at, brk);
    RunStore(im, c, g, ExnV(x), start - 9, st, s.trap);
    junk, stale, pc := SimBlock(im, s.handler, g, start, brk, st1, fuel);
    GrowTwice(g, [], [], [], []);
    StmtAfter(im, g, [], [], c, At(g, start, st1), BlockSpot(s.handler, start, brk), sp, fuel,
              ExecBlock(im.env, s.handler, st1, |g.callers|, fuel), junk, stale, pc);
    assert [] + junk == junk && [] + stale == stale;
  }

  /** A protected block that does not fault. `MonitorExit` drops the newest handler,
      which is a stale inner one if a `break` left one. */
  lemma BodyEnds(im: Image, c: Config, s: Stmt, g: Site, at: nat, brk: nat, st: State, fuel: nat,
                 r: StmtResult, junk: seq<Value>, stale0: seq<Mon>, pc: nat) returns (stale: seq<Mon>)
    requires s.Monitor? && StmtAt(im.code(g.blob), at, s, brk) && !r.Faulted?
    requires Reaches(im, c, At(Grow(g, [], [MonOf(s, g, at)]), at + 5, st))
    requires StmtPost(im, Grow(g, [], [MonOf(s, g, at)]), At(Grow(g, [], [MonOf(s, g, at)]), at + 5, st),
                      BlockSpot(s.body, at + 5, brk), fuel, r, junk, stale0, pc)
    ensures StmtPost(im, g, c, StmtSpot(s, at, brk), fuel, r, junk, stale, pc)
  {
    hide Reaches, Alive, Steps, BlockAt, BlockRegions, SizeBlock, Within, WfStmt, InstrAt, Covers;
    var m, exit := MonOf(s, g, at), at + 5 + SizeBlock(s.body);
    var above, n := [m] + stale0, |stale0|;
    var d := At(Grow(g, [], [m]), at + 5, st);
    MonitorParts(s, g, at, brk);
    GrowTwice(g, [], [m], junk, stale0);
    assert [] + junk == junk;
    stale := above;
    match r
    case Normal(st1) =>
      stale := above[..n];
      var g1 := Grow(g, junk, stale);
      assert above == stale + [above[n]];
      GrowTwice(g, junk, stale, [], [above[n]]);
      assert junk + [] == junk;
      ReachesTrans(im, c, d, At(Grow(g, junk, above), exit, st1));
      RunExit(im, c, g1, above[n], exit, st1);
      RunJmp(im, c, g1, exit + 1, st1, at + SizeStmt(s));
    case Broke(st1) => ReachesTrans(im, c, d, At(Grow(g, junk, above), brk, st1));
    case Returned(v, st1) => ReachesTrans(im, c, d, Leave(v, g.callers, st1.w));
    case OutOfFuel => AliveBefore(im, c, d, fuel);
  }

  // ---- whole functions ----

  lemma {:induction false} DropStaleAll(stale: seq<Mon>, pc: nat)
    requires forall t | t in stale :: !Covers(t, pc)
    ensures DropStale(stale, pc) == []
    decreases |stale|
  {
    if stale != [] {
      DropStaleAll(stale[..|stale| - 1], pc);
    }
  }

  lemma {:induction false} SimBody(im: Image, fn: Function, g: Site, st: State, fuel: nat)
    returns (s: seq<Value>, pc: nat)
    requires Loaded(im) && WfBlock(fn.body) && FunctionAt(im.code(g.blob), fn)
    requires g.stack == [] && g.mons == []
    ensures BodyPost(im, g, At(g, 9 * |fn.params|, st), fuel, ExecBlock(im.env, fn.body, st, |g.callers|, fuel), s, pc)
    decreases fuel, fn.body, 2
  {
    var start, c := 9 * |fn.params|, At(g, 9 * |fn.params|, st);
    var end := start + SizeBlock(fn.body);
    var junk, stale, pc1 := SimBlock(im, fn.body, g, start, end, st, fuel);
    BodyFinishes(im, fn, g, c, fuel, ExecBlock(im.env, fn.body, st, |g.callers|, fuel), junk, stale, pc1);
    s, pc := Grow(g, junk, stale).stack, pc1;
  }

  lemma BodyFinishes(im: Image, fn: Function, g: Site, c: Config, fuel: nat, r: StmtResult, junk: seq<Value>,
      stale: seq<Mon>, pc: nat)
    requires FunctionAt(im.code(g.blob), fn) && g.mons == []
    requires StmtPost(im, g, c, BlockSpot(fn.body, 9 * |fn.params|, 9 * |fn.params| + SizeBlock(fn.body)), fuel, r,
      junk, stale, pc)
    ensures BodyPost(im, g, c, fuel, r, Grow(g, junk, stale).stack, pc)
  {
    var end, g1 := 9 * |fn.params| + SizeBlock(fn.body), Grow(g, junk, stale);
    match r
    case Normal(st) =>
      RunPush(im, c, g1, end, st, NullLit);
      RunRet(im, c, g1, NullV, end + 1, st);
    case Broke(st) =>
      RunPush(im, c, g1, end, st, NullLit);
      RunRet(im, c, g1, NullV, end + 1, st);
    case Faulted(x, st) =>
      assert g1.mons == stale;
      DropStaleAll(stale, pc);
    case _ =>
  }

  // ---- whole programs ----

  /** How a package initializer ends. */
  datatype Ending = Completed(result: Value, w: World) | Crashed(exn: Exn, w: World) | StillRunning

  function EndingOf(c: Config): Ending {
    match c
    case Running(_, _, _) => StillRunning
    case Finished(v, w) => Completed(v, w)
    case Uncaught(x, w) => Crashed(x, w)
  }

  /** The ending the language gives a package's top-level statements. */
  function SourceEnding(env: Env, body: seq<Stmt>, w: World, fuel: nat): Ending {
    match ExecBlock(env, body, State(GlobalScope, w), 0, fuel)
    case Normal(st) => Completed(NullV, st.w)
    case Broke(st) => Completed(NullV, st.w)
    case Returned(v, st) => Completed(v, st.w)
    case Faulted(x, st) => Crashed(x, st.w)
    case OutOfFuel => StillRunning
  }

  function Boot(blob: string, w: World): Config {
    Running(Frame(blob, 0, [], GlobalScope, []), [], w)
  }

  /** Whatever the source does within `fuel`, the machine does; and while the source is
      still going, so is the machine, for at least as many steps. */
  lemma SourceToMachine(im: Image, blob: string, body: seq<Stmt>, w: World, fuel: nat)
    requires Loaded(im) && WfBlock(body) && TopAt(im.code(blob), body)
    ensures match SourceEnding(im.env, body, w, fuel)
            case StillRunning => Alive(im, Boot(blob, w), fuel)
            case e => exists c :: Reaches(im, Boot(blob, w), c) && EndingOf(c) == e
  {
    var g, st, end := Site(blob, [], [], []), State(GlobalScope, w), SizeBlock(body);
    var c := At(g, 0, st);
    var junk, stale, pc := SimBlock(im, body, g, 0, end, st, fuel);
    var g1 := Grow(g, junk, stale);
    match ExecBlock(im.env, body, st, 0, fuel)
    case Normal(st1) => RunHalt(im, c, g1, end, st1); assert EndingOf(Leave(NullV, [], st1.w))
      == Completed(NullV, st1.w);
    case Broke(st1) => RunHalt(im, c, g1, end, st1); assert EndingOf(Leave(NullV, [], st1.w))
      == Completed(NullV, st1.w);
    case Returned(v, st1) => assert EndingOf(Leave(v, [], st1.w)) == Completed(v, st1.w);
    case Faulted(x, st1) =>
      assert g1.mons == stale;
      DropStaleAll(stale, pc);
      assert EndingOf(RaiseAt(g1, x, pc, st1)) == Crashed(x, st1.w);
    case OutOfFuel =>
  }

  lemma MachineFollows(im: Image, blob: string, body: seq<Stmt>, w: World, fuel: nat) returns (n: nat)
    requires Loaded(im) && WfBlock(body) && TopAt(im.code(blob), body)
      && !SourceEnding(im.env, body, w, fuel).StillRunning?
    ensures EndingOf(Steps(im, Boot(blob, w), n)) == SourceEnding(im.env, body, w, fuel)
  {
    SourceToMachine(im, blob, body, w, fuel);
    var c :| Reaches(im, Boot(blob, w), c) && EndingOf(c) == SourceEnding(im.env, body, w, fuel);
    n :| Steps(im, Boot(blob, w), n) == c;
  }

  lemma SourceFollows(im: Image, blob: string, body: seq<Stmt>, w: World, n: nat)
    requires Loaded(im) && WfBlock(body) && TopAt(im.code(blob), body)
      && !EndingOf(Steps(im, Boot(blob, w), n)).StillRunning?
    ensures SourceEnding(im.env, body, w, n) == EndingOf(Steps(im, Boot(blob, w), n))
  {
    SourceToMachine(im, blob, body, w, n);
    var m := MachineFollows(im, blob, body, w, n);
    RunsAgree(im, Boot(blob, w), Steps(im, Boot(blob, w), m), Steps(im, Boot(blob, w), n));
  }

  /** Compiler correctness, both ways: the compiled package ends in a given way exactly
      when the source does, with the same value or fault and the same globals and heap;
      so it also runs forever exactly when the source does. */
  lemma CompilerCorrect(im: Image, blob: string, body: seq<Stmt>, w: World, e: Ending)
    requires Loaded(im) && WfBlock(body) && TopAt(im.code(blob), body) && !e.StillRunning?
    ensures (exists fuel: nat :: SourceEnding(im.env, body, w, fuel) == e)
       <==> (exists n: nat :: EndingOf(Steps(im, Boot(blob, w), n)) == e)
  {
    if fuel: nat :| SourceEnding(im.env, body, w, fuel) == e {
      var n := MachineFollows(im, blob, body, w, fuel);
    }
    if n: nat :| EndingOf(Steps(im, Boot(blob, w), n)) == e {
      SourceFollows(im, blob, body, w, n);
    }
  }
}
