/** The abstract syntax the code generator lowers, and the run-time values it names.

    Every strict operator node of the source tree (binary, unary, member, index,
    array, tuple, map, cast, alloc, simd) evaluates its operands left to right and
    then performs one operation, so one constructor, `Apply`, stands for all of them. */
module Syntax {

  datatype Option<+T> = None | Some(value: T)

  datatype BinOp =
    | Add | Sub | Mul | Div | Mod
    | Eq | Ne | Lt | Gt | Le | Ge
    | BitAnd | BitOr | BitXor

  datatype UnOp = Neg | Not | BitNot

  /** Operand of a cast. */
  datatype TypeNode =
    | Primitive(kind: nat)
    | Named(name: string)
    | ArrayOf(element: TypeNode)
    | TupleOf(elements: seq<TypeNode>)
    | MapOf(key: TypeNode, item: TypeNode)
    | LambdaOf(params: seq<TypeNode>, ret: TypeNode)

  datatype Lit =
    | IntLit(i: int)
    | FloatLit(bits: nat)
    | StrLit(text: string)
    | CharLit(code: nat)
    | BoolLit(b: bool)
    | NullLit
    | RegexLit(pattern: string)
    | EnumLit(enumName: string, member: string)
    | FuncLit(func: string)

  /** A strict operation. The counts are the ones the instruction carries. */
  datatype Op =
    | Binary(bop: BinOp)
    | Unary(uop: UnOp)
    | MemberGet(field: string)
    | IndexGet
    | MakeArray(count: nat)
    | MakeTuple(count: nat)
    | MakeMap(count: nat)
    | Cast(target: TypeNode)
    | Alloc(count: nat)
    | MakeSimd
    | CloneObject

  /** How many operands an operation takes from the stack. */
  function Arity(op: Op): nat {
    match op
    case Binary(_) => 2
    case Unary(_) => 1
    case MemberGet(_) => 1
    case IndexGet => 2
    case MakeArray(n) => n
    case MakeTuple(n) => n
    case MakeMap(n) => 2 * n
    case Cast(_) => 1
    case Alloc(n) => n + 1
    case MakeSimd => 1
    case CloneObject => 1
  }

  datatype Expr =
    | Literal(lit: Lit)
    | Ident(name: string)
    | Apply(op: Op, operands: seq<Expr>)
    | Logical(isAnd: bool, left: Expr, right: Expr)
    | Call(callee: Expr, args: seq<Expr>)

  datatype Target = Discard | To(name: string)

  datatype Hint = NoHint | Likely | Unlikely

  /** An `if` chain; the source always has at least one `Elif` in front. */
  datatype Chain =
    | Else(els: seq<Stmt>)
    | Elif(cond: Expr, hint: Hint, body: seq<Stmt>, rest: Chain)

  datatype Case = Case(enumName: string, member: string, body: seq<Stmt>)

  /** An absent `else` is the empty block and a bare `return` returns the null
      literal: both pairs are lowered to the same code. */
  datatype Stmt =
    | Assign(targets: seq<Target>, addAssign: bool, value: Expr)
    | ExprStmt(expr: Expr)
    | Return(expr: Expr)
    | Break
    | Block(body: seq<Stmt>)
    | If(chain: Chain)
    | Loop(cond: Option<Expr>, body: seq<Stmt>)
    | Match(scrutinee: Expr, cases: seq<Case>)
    | Monitor(body: seq<Stmt>, trap: string, handler: seq<Stmt>)

  datatype Function = Function(params: seq<string>, body: seq<Stmt>)

  /** `likely(x)` and `unlikely(x)` are `x` with a hint: the tree has the hint in `Chain`, and
      no such call. */
  predicate HintCall(callee: Expr, args: seq<Expr>) {
    |args| == 1 && (callee == Ident("likely") || callee == Ident("unlikely"))
  }

  /** The tree the parser builds: every operation has as many operands as it takes. */
  predicate WfExpr(e: Expr)
    decreases e, 1
  {
    match e
    case Literal(_) => true
    case Ident(_) => true
    case Apply(op, operands) => |operands| == Arity(op) && WfExprs(operands)
    case Logical(_, left, right) => WfExpr(left) && WfExpr(right)
    case Call(callee, args) => WfExpr(callee) && WfExprs(args) && !HintCall(callee, args)
  }

  predicate WfExprs(es: seq<Expr>)
    decreases es, 0
  {
    es == [] || (WfExpr(es[0]) && WfExprs(es[1..]))
  }

  predicate WfStmt(s: Stmt)
    decreases s, 1
  {
    match s
    case Assign(_, _, value) => WfExpr(value)
    case ExprStmt(e) => WfExpr(e)
    case Return(e) => WfExpr(e)
    case Break => true
    case Block(body) => WfBlock(body)
    case If(chain) => WfChain(chain)
    case Loop(cond, body) => (cond.Some? ==> WfExpr(cond.value)) && WfBlock(body)
    case Match(scrutinee, cases) => WfExpr(scrutinee) && WfCases(cases)
    case Monitor(body, _, handler) => WfBlock(body) && WfBlock(handler)
  }

  predicate WfBlock(ss: seq<Stmt>)
    decreases ss, 0
  {
    ss == [] || (WfStmt(ss[0]) && WfBlock(ss[1..]))
  }

  predicate WfChain(ch: Chain)
    decreases ch, 0
  {
    match ch
    case Else(els) => WfBlock(els)
    case Elif(cond, _, body, rest) => WfExpr(cond) && WfBlock(body) && WfChain(rest)
  }

  predicate WfCases(cases: seq<Case>)
    decreases cases, 0
  {
    cases == [] || (WfBlock(cases[0].body) && WfCases(cases[1..]))
  }

  // ---- run-time values ----

  datatype ExnKind = Error | DivisionByZero | Overflow

  datatype Exn = Exn(kind: ExnKind, message: string)

  /** Arrays, tuples, maps, objects and buffers are references into the heap;
      `Native` stands for the remaining handle kinds, which only the host inspects. */
  datatype Value =
    | NullV
    | BoolV(b: bool)
    | IntV(i: int)
    | FloatV(bits: nat)
    | CharV(code: nat)
    | StrV(text: string)
    | RegexV(pattern: string)
    | EnumV(enumName: string, member: string)
    | ExnV(exn: Exn)
    | FuncV(func: string)
    | ArrayV(id: nat)
    | TupleV(id: nat)
    | MapV(id: nat)
    | ObjectV(id: nat)
    | BufferV(id: nat)
    | NativeV(handle: nat)

  datatype Cell =
    | Items(items: seq<Value>)
    | Entries(entries: seq<(Value, Value)>)
    | Instance(typeName: string, fieldNames: seq<string>, fields: seq<Value>)

  /** What outlives a call: the package globals and the heap. */
  datatype World = World(globals: map<string, Value>, heap: seq<Cell>)

  /** The variables one frame sees: package code has globals only. */
  datatype Scope = GlobalScope | LocalScope(locals: map<string, Value>)

  /** Result of an operation: a value, or the runtime fault it raises. */
  datatype Outcome = Ok(value: Value) | Raised(exn: Exn)

  predicate IsTruthy(v: Value) {
    match v
    case BoolV(b) => b
    case IntV(i) => i != 0
    case FloatV(bits) => bits != 0 && bits != 0x8000_0000_0000_0000
    case StrV(s) => s != ""
    case CharV(c) => c != 0
    case NullV => false
    case _ => true
  }

  /** Read `name`: the frame's locals first, then the package globals. */
  function LoadName(name: string, sc: Scope, w: World): Outcome {
    if sc.LocalScope? && name in sc.locals then Ok(sc.locals[name])
    else if name in w.globals then Ok(w.globals[name])
    else Raised(Exn(Error, "undefined name `" + name + "`"))
  }

  /** Write `name`: an existing local, else an existing global, else a new local;
      package code writes globals. */
  function StoreName(name: string, v: Value, sc: Scope, w: World): (Scope, World) {
    match sc
    case GlobalScope => (sc, w.(globals := w.globals[name := v]))
    case LocalScope(locals) =>
      if name in locals then (LocalScope(locals[name := v]), w)
      else if name in w.globals then (sc, w.(globals := w.globals[name := v]))
      else (LocalScope(locals[name := v]), w)
  }
}
