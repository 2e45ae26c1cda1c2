/** What a munx program means, stated on its syntax tree without any stack, jump or
    handler list. This is the reference the compiled code is compared with. */
module Semantics {
  import opened Syntax

  /** The parts of the system the language definition is independent of: the
      declared functions, and the value operators, which the source semantics and the
      machine share. `native` is a call of anything that is not a munx function. */
  datatype Env = Env(
    funs: map<string, Function>,
    prim: (Op, seq<Value>, seq<Cell>) -> (Outcome, seq<Cell>),
    elements: (Value, seq<Cell>) -> Option<seq<Value>>,
    native: (Value, seq<Value>, World) -> (Outcome, World))

  const CallDepthLimit: nat := 512

  datatype State = State(sc: Scope, w: World)

  /** Outcome of an expression. `Spent` means the fuel ran out. */
  datatype ExprResult = Val(v: Value, st: State) | Fault(exn: Exn, st: State) | Spent

  datatype ExprsResult = Vals(vs: seq<Value>, st: State) | FaultIn(exn: Exn, st: State) | SpentIn

  /** Outcome of a statement. */
  datatype StmtResult =
    | Normal(st: State)
    | Broke(st: State)
    | Returned(v: Value, st: State)
    | Faulted(exn: Exn, st: State)
    | OutOfFuel

  function LitOutcome(env: Env, l: Lit): Outcome {
    match l
    case IntLit(i) => Ok(IntV(i))
    case FloatLit(bits) => Ok(FloatV(bits))
    case StrLit(s) => Ok(StrV(s))
    case CharLit(c) => Ok(CharV(c))
    case BoolLit(b) => Ok(BoolV(b))
    case NullLit => Ok(NullV)
    case RegexLit(p) => Ok(RegexV(p))
    case EnumLit(e, m) => Ok(EnumV(e, m))
    case FuncLit(f) =>
      if f in env.funs then Ok(FuncV(f)) else Raised(Exn(Error, "unknown function `" + f + "`"))
  }

  function Eval(env: Env, e: Expr, st: State, depth: nat, fuel: nat): ExprResult
    decreases fuel, e, 1
  {
    match e
    case Literal(l) =>
      (match LitOutcome(env, l)
       case Ok(v) => Val(v, st)
       case Raised(x) => Fault(x, st))
    case Ident(name) =>
      (match LoadName(name, st.sc, st.w)
       case Ok(v) => Val(v, st)
       case Raised(x) => Fault(x, st))
    case Apply(op, operands) =>
      (match EvalAll(env, operands, st, depth, fuel)
       case SpentIn => Spent
       case FaultIn(x, st1) => Fault(x, st1)
       case Vals(vs, st1) => ApplyPrim(env, op, vs, st1))
    case Logical(isAnd, left, right) =>
      (match Eval(env, left, st, depth, fuel)
       case Val(v, st1) =>
         if IsTruthy(v) == isAnd then Eval(env, right, st1, depth, fuel) else Val(v, st1)
       case r => r)
    case Call(callee, args) =>
      (match Eval(env, callee, st, depth, fuel)
       case Val(f, st1) => EvalCall(env, e, f, st1, depth, fuel)
       case r => r)
  }

  /** The rest of call `e` once its callee is `f`. */
  function EvalCall(env: Env, e: Expr, f: Value, st: State, depth: nat, fuel: nat): ExprResult
    requires e.Call?
    decreases fuel, e, 0
  {
    match EvalAll(env, e.args, st, depth, fuel)
    case SpentIn => Spent
    case FaultIn(x, st1) => Fault(x, st1)
    case Vals(vs, st1) =>
      match Callable(env, f, vs, depth)
      case Refused(x) => Fault(x, st1)
      case Outside => NativeCall(env, f, vs, st1)
      case Enter(fn) =>
        if fuel == 0 then Spent
        else
          var start := State(LocalScope(BindParams(fn.params, vs)), st1.w);
          BodyResult(ExecBlock(env, fn.body, start, depth + 1, fuel - 1), st1)
  }

  function ApplyPrim(env: Env, op: Op, vs: seq<Value>, st: State): ExprResult {
    var (r, h) := env.prim(op, vs, st.w.heap);
    match r
    case Ok(v) => Val(v, st.(w := st.w.(heap := h)))
    case Raised(x) => Fault(x, st.(w := st.w.(heap := h)))
  }

  function EvalAll(env: Env, es: seq<Expr>, st: State, depth: nat, fuel: nat): (r: ExprsResult)
    ensures r.Vals? ==> |r.vs| == |es|
    decreases fuel, es, 0
  {
    if es == [] then Vals([], st)
    else
      match Eval(env, es[0], st, depth, fuel)
      case Spent => SpentIn
      case Fault(x, st1) => FaultIn(x, st1)
      case Val(v, st1) =>
        match EvalAll(env, es[1..], st1, depth, fuel)
        case Vals(vs, st2) => Vals([v] + vs, st2)
        case r => r
  }

  /** The frame a call starts in: parameter i bound to argument i (the first of two
      equal names wins). */
  function BindParams(params: seq<string>, args: seq<Value>): map<string, Value>
    requires |params| == |args|
  {
    if params == [] then map[]
    else BindParams(params[1..], args[1..])[params[0] := args[0]]
  }

  function ArityFault(f: string): Exn {
    Exn(Error, f + " expects another number of argument(s)")
  }

  function OverflowFault(f: string): Exn {
    Exn(Error, "call stack overflow in " + f)
  }

  datatype CallPlan = Refused(exn: Exn) | Outside | Enter(fn: Function)

  /** Whether a call can start: user functions check the argument count and then the
      nesting limit; everything else is left to the host. */
  function Callable(env: Env, f: Value, args: seq<Value>, depth: nat): (r: CallPlan)
    ensures r.Enter? ==> f.FuncV? && f.func in env.funs && r.fn == env.funs[f.func] && |args| == |r.fn.params|
  {
    if f.FuncV? && f.func in env.funs then
      if |args| != |env.funs[f.func].params| then Refused(ArityFault(f.func))
      else if depth + 1 > CallDepthLimit then Refused(OverflowFault(f.func))
      else Enter(env.funs[f.func])
    else Outside
  }

  function NativeCall(env: Env, f: Value, args: seq<Value>, st: State): ExprResult {
    var (r, w) := env.native(f, args, st.w);
    match r
    case Ok(v) => Val(v, st.(w := w))
    case Raised(x) => Fault(x, st.(w := w))
  }

  /** What the caller sees of a finished body: its own variables are untouched, and a
      body that falls off its end, or breaks with no loop around, returns null. */
  function BodyResult(r: StmtResult, st: State): ExprResult {
    match r
    case Normal(st1) => Val(NullV, st.(w := st1.w))
    case Broke(st1) => Val(NullV, st.(w := st1.w))
    case Returned(v, st1) => Val(v, st.(w := st1.w))
    case Faulted(x, st1) => Fault(x, st.(w := st1.w))
    case OutOfFuel => Spent
  }

  function BindName(name: string, v: Value, st: State): State {
    var (sc, w) := StoreName(name, v, st.sc, st.w);
    State(sc, w)
  }

  function BindTarget(t: Target, v: Value, st: State): State {
    match t
    case Discard => st
    case To(name) => BindName(name, v, st)
  }

  function UnpackFault(): Exn {
    Exn(Error, "cannot destructure the value")
  }

  /** The first `n` elements of an aggregate, or a fault. */
  function Unpacked(env: Env, v: Value, n: nat, heap: seq<Cell>): (r: Option<seq<Value>>)
    ensures r.Some? ==> |r.value| == n
  {
    match env.elements(v, heap)
    case None => None
    case Some(items) => if |items| < n then None else Some(items[..n])
  }

  /** Bind destructured values to their targets in source order. */
  function BindAll(env: Env, targets: seq<Target>, addAssign: bool, vs: seq<Value>, st: State): StmtResult
    requires |targets| == |vs|
    decreases |targets|
  {
    if targets == [] then Normal(st)
    else if addAssign && targets[0].To? then
      match AddTo(env, targets[0].name, vs[0], st)
      case Normal(st1) => BindAll(env, targets[1..], addAssign, vs[1..], st1)
      case r => r
    else
      BindAll(env, targets[1..], addAssign, vs[1..], BindTarget(targets[0], vs[0], st))
  }

  /** `name = name + v`. */
  function AddTo(env: Env, name: string, v: Value, st: State): (r: StmtResult)
    ensures r.Normal? || r.Faulted?
  {
    match LoadName(name, st.sc, st.w)
    case Raised(x) => Faulted(x, st)
    case Ok(old_) =>
      match ApplyPrim(env, Binary(Add), [old_, v], st)
      case Val(sum, st1) => Normal(BindName(name, sum, st1))
      case Fault(x, st1) => Faulted(x, st1)
  }

  function Lift(r: ExprResult): StmtResult
    requires !r.Val?
  {
    match r
    case Fault(x, st) => Faulted(x, st)
    case Spent => OutOfFuel
  }

  function ExecAssign(env: Env, s: Stmt, st: State, depth: nat, fuel: nat): StmtResult
    requires s.Assign?
    decreases fuel, s, 0
  {
    if s.addAssign && |s.targets| == 1 && s.targets[0].To? then
      // the old value is read before the right-hand side runs
      match LoadName(s.targets[0].name, st.sc, st.w)
      case Raised(x) => Faulted(x, st)
      case Ok(old_) => AddResult(env, s, old_, Eval(env, s.value, st, depth, fuel))
    else
      match Eval(env, s.value, st, depth, fuel)
      case Val(v, st1) => BindValue(env, s, v, st1)
      case r => Lift(r)
  }

  function AddResult(env: Env, s: Stmt, old_: Value, r: ExprResult): StmtResult
    requires s.Assign? && |s.targets| == 1 && s.targets[0].To?
  {
    match r
    case Val(v, st1) =>
      (match ApplyPrim(env, Binary(Add), [old_, v], st1)
       case Val(sum, st2) => Normal(BindName(s.targets[0].name, sum, st2))
       case r => Lift(r))
    case r => Lift(r)
  }

  function BindValue(env: Env, s: Stmt, v: Value, st: State): StmtResult
    requires s.Assign?
  {
    if |s.targets| == 1 then Normal(BindTarget(s.targets[0], v, st))
    else
      match Unpacked(env, v, |s.targets|, st.w.heap)
      case None => Faulted(UnpackFault(), st)
      case Some(vs) => BindAll(env, s.targets, s.addAssign, vs, st)
  }

  function Exec(env: Env, s: Stmt, st: State, depth: nat, fuel: nat): StmtResult
    decreases fuel, s, 1
  {
    match s
    case Assign(_, _, _) => ExecAssign(env, s, st, depth, fuel)
    case ExprStmt(e) =>
      (match Eval(env, e, st, depth, fuel)
       case Val(v, st1) => Normal(st1)
       case r => Lift(r))
    case Return(e) =>
      (match Eval(env, e, st, depth, fuel)
       case Val(v, st1) => Returned(v, st1)
       case r => Lift(r))
    case Break => Broke(st)
    case Block(body) => ExecBlock(env, body, st, depth, fuel)
    case If(chain) => ExecChain(env, chain, st, depth, fuel)
    case Loop(cond, body) => ExecLoop(env, s, st, depth, fuel)
    case Match(scrutinee, cases) =>
      (match Eval(env, scrutinee, st, depth, fuel)
       case Val(v, st1) => ExecCases(env, v, cases, st1, depth, fuel)
       case r => Lift(r))
    case Monitor(body, trap, handler) =>
      (match ExecBlock(env, body, st, depth, fuel)
       case Faulted(x, st1) => ExecBlock(env, handler, BindName(trap, ExnV(x), st1), depth, fuel)
       case r => r)
  }

  function ExecBlock(env: Env, ss: seq<Stmt>, st: State, depth: nat, fuel: nat): StmtResult
    decreases fuel, ss, 0
  {
    if ss == [] then Normal(st)
    else
      match Exec(env, ss[0], st, depth, fuel)
      case Normal(st1) => ExecBlock(env, ss[1..], st1, depth, fuel)
      case r => r
  }

  function ExecChain(env: Env, ch: Chain, st: State, depth: nat, fuel: nat): StmtResult
    decreases fuel, ch, 0
  {
    match ch
    case Else(els) => ExecBlock(env, els, st, depth, fuel)
    case Elif(cond, _, body, rest) =>
      match Eval(env, cond, st, depth, fuel)
      case Val(v, st1) =>
        if IsTruthy(v) then ExecBlock(env, body, st1, depth, fuel)
        else ExecChain(env, rest, st1, depth, fuel)
      case r => Lift(r)
  }

  /** Run the first arm whose member equals the scrutinee. The comparison is the
      language's own `==`. */
  function ExecCases(env: Env, v: Value, cases: seq<Case>, st: State, depth: nat, fuel: nat): StmtResult
    decreases fuel, cases, 0
  {
    if cases == [] then Normal(st)
    else
      match ApplyPrim(env, Binary(Eq), [v, EnumV(cases[0].enumName, cases[0].member)], st)
      case Val(b, st1) =>
        if IsTruthy(b) then ExecBlock(env, cases[0].body, st1, depth, fuel)
        else ExecCases(env, v, cases[1..], st1, depth, fuel)
      case Fault(x, st1) => Faulted(x, st1)
      case Spent => OutOfFuel
  }

  function ExecLoop(env: Env, s: Stmt, st: State, depth: nat, fuel: nat): StmtResult
    requires s.Loop?
    decreases fuel, s, 0
  {
    if s.cond.Some? then
      match Eval(env, s.cond.value, st, depth, fuel)
      case Val(v, st1) =>
        if IsTruthy(v) then LoopBody(env, s, st1, depth, fuel) else Normal(st1)
      case r => Lift(r)
    else
      LoopBody(env, s, st, depth, fuel)
  }

  /** One iteration and, unless it leaves the loop, the next one. */
  function LoopBody(env: Env, s: Stmt, st: State, depth: nat, fuel: nat): StmtResult
    requires s.Loop?
    decreases fuel, s.body, 1
  {
    match ExecBlock(env, s.body, st, depth, fuel)
    case Normal(st1) => if fuel == 0 then OutOfFuel else ExecLoop(env, s, st1, depth, fuel - 1)
    case Broke(st1) => Normal(st1)
    case r => r
  }
}
