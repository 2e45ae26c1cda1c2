/** Field constraints are folded by the type checker where the constructor's argument is a
    constant, and compiled to a check on a temporary everywhere: when the two agree. */
module Folding {
  import opened Bytes
  import opened Syntax
  import opened Semantics
  import opened Values

  /** Compile-time constants, as far as they are modelled. */
  datatype Const = NullC | BoolC(b: bool) | IntC(i: int) | TextC(text: string)

  predicate Truthy(k: Const) {
    match k
    case NullC => false
    case BoolC(b) => b
    case IntC(i) => i != 0
    case TextC(s) => s != ""
  }

  function ValueOf(k: Const): (v: Value)
    ensures IsTruthy(v) == Truthy(k)
  {
    match k
    case NullC => NullV
    case BoolC(b) => BoolV(b)
    case IntC(i) => IntV(i)
    case TextC(s) => StrV(s)
  }

  // ---- arithmetic ----

  /** Division truncates towards zero. */
  function Quotient(a: int, b: int): int
    requires b != 0
  {
    var q := Absolute(a) / Absolute(b);
    if (a < 0) == (b < 0) then q else 0 - q
  }

  function Remainder(a: int, b: int): int
    requires b != 0
  {
    a - Quotient(a, b) * b
  }

  function Absolute(x: int): nat {
    if x < 0 then 0 - x else x
  }

  /** The exact result of an arithmetic operator, if it has one. */
  function Exactly(op: BinOp, a: int, b: int): Option<int> {
    match op
    case Add => Some(a + b)
    case Sub => Some(a - b)
    case Mul => Some(a * b)
    case Div => if b == 0 then None else Some(Quotient(a, b))
    case Mod => if b == 0 then None else Some(Remainder(a, b))
    case _ => None
  }

  /** What 64 bits keep. */
  function Wrapped(x: int): int {
    (x + 0x8000_0000_0000_0000) % 0x1_0000_0000_0000_0000 - 0x8000_0000_0000_0000
  }

  /** Comparisons go through doubles. */
  function Compared(op: BinOp, a: int, b: int): Option<bool> {
    var x, y := ToDouble(a), ToDouble(b);
    match op
    case Eq => Some(x == y)
    case Ne => Some(x != y)
    case Lt => Some(x < y)
    case Le => Some(x <= y)
    case Gt => Some(x > y)
    case Ge => Some(x >= y)
    case _ => None
  }

  // ---- folding ----

  function FoldOne(op: Op, k: Const): Option<Const> {
    match op
    case Unary(Not) => Some(BoolC(!Truthy(k)))
    case Unary(Neg) => if k.IntC? then Some(IntC(Wrapped(0 - k.i))) else None
    case MemberGet(field) => if k.TextC? && field == "len" then Some(IntC(|k.text|)) else None
    case _ => None
  }

  function FoldBinary(op: BinOp, l: Const, r: Const): Option<Const> {
    if l.TextC? && r.TextC? then
      match op
      case Eq => Some(BoolC(l.text == r.text))
      case Ne => Some(BoolC(l.text != r.text))
      case Add => Some(TextC(l.text + r.text))
      case _ => None
    else if l.BoolC? && r.BoolC? then
      match op
      case Eq => Some(BoolC(l.b == r.b))
      case Ne => Some(BoolC(l.b != r.b))
      case _ => None
    else if l.IntC? && r.IntC? then
      if Compared(op, l.i, r.i).Some? then Some(BoolC(Compared(op, l.i, r.i).value))
      else if Exactly(op, l.i, r.i).Some? then Some(IntC(Wrapped(Exactly(op, l.i, r.i).value)))
      else None
    else None
  }

  /** The value of an expression if it is a constant, `_` standing for `under`. Both sides
      of a logical operator are folded. */
  function Fold(e: Expr, under: Option<Const>): Option<Const> {
    match e
    case Literal(NullLit) => Some(NullC)
    case Literal(BoolLit(b)) => Some(BoolC(b))
    case Literal(IntLit(i)) => Some(IntC(i))
    case Literal(StrLit(s)) => Some(TextC(s))
    case Literal(CharLit(c)) => if c < 256 then Some(TextC([c as char])) else None
    case Ident(name) => if name == "_" then under else None
    case Logical(isAnd, left, right) =>
      var l, r := Fold(left, under), Fold(right, under);
      if l.None? || r.None? then None
      else Some(BoolC(if isAnd then Truthy(l.value) && Truthy(r.value) else Truthy(l.value) || Truthy(r.value)))
    case Apply(op, xs) =>
      if |xs| == 1 then
        var k := Fold(xs[0], under);
        if k.None? then None else FoldOne(op, k.value)
      else if |xs| == 2 && op.Binary? then
        var l, r := Fold(xs[0], under), Fold(xs[1], under);
        if l.None? || r.None? then None else FoldBinary(op.bop, l.value, r.value)
      else None
    case _ => None
  }

  // ---- the check at run time ----

  /** The constraint with `_` renamed, or none if it holds anything a constraint may not. */
  function Subst(e: Expr, name: string): Option<Expr>
    decreases e, 1
  {
    match e
    case Literal(l) => if l.RegexLit? || l.EnumLit? || l.FuncLit? then None else Some(e)
    case Ident(n) => Some(Ident(if n == "_" then name else n))
    case Apply(op, operands) =>
      if !(op.Unary? || op.Binary? || op.MemberGet? || op.IndexGet?) then None
      else
        var xs := SubstAll(operands, name);
        if xs.None? then None else Some(Expr.Apply(op, xs.value))
    case Logical(isAnd, left, right) =>
      var l, r := Subst(left, name), Subst(right, name);
      if l.None? || r.None? then None else Some(Logical(isAnd, l.value, r.value))
    case Call(callee, args) =>
      var f, xs := Subst(callee, name), SubstAll(args, name);
      if f.None? || xs.None? then None else Some(Call(f.value, xs.value))
  }

  function SubstAll(es: seq<Expr>, name: string): Option<seq<Expr>>
    decreases es, 0
  {
    if es == [] then Some([])
    else
      var first, rest := Subst(es[0], name), SubstAll(es[1..], name);
      if first.None? || rest.None? then None else Some([first.value] + rest.value)
  }

  /** Booleans and characters count as integers. */
  function AsInt(v: Value): Option<int> {
    match v
    case IntV(i) => Some(i)
    case BoolV(b) => Some(if b then 1 else 0)
    case CharV(c) => Some(c)
    case _ => None
  }

  /** Equality of null, booleans, integers, characters and strings. */
  predicate Same(v: Value, w: Value) {
    if v.NullV? || w.NullV? then v == w
    else if AsInt(v).Some? && AsInt(w).Some? then AsInt(v) == AsInt(w)
    else v == w
  }

  /** The values a constant expression can run to. */
  predicate Basic(v: Value) {
    v.NullV? || v.BoolV? || v.IntV? || (v.CharV? && v.code < 256) || v.StrV?
  }

  function Display(v: Value): Option<string> {
    match v case StrV(s) => Some(s) case CharV(c) => if c < 256 then Some([c as char]) else None case _ => None
  }

  function Overflowed(what: string): Outcome {
    Raised(Exn(Overflow, what))
  }

  /** What the machine's operators do with null, booleans, integers, characters and strings;
      none where this model does not say. Integers are compared for equality as integers. */
  function VmOp(op: Op, vs: seq<Value>): Option<Outcome> {
    match op
    case Unary(Not) => if |vs| == 1 then Some(Ok(BoolV(!IsTruthy(vs[0])))) else None
    case Unary(Neg) =>
      if |vs| != 1 || AsInt(vs[0]).None? then None
      else if IsI64(0 - AsInt(vs[0]).value) then Some(Ok(IntV(0 - AsInt(vs[0]).value)))
      else Some(Overflowed("integer negation"))
    case MemberGet(field) =>
      if |vs| != 1 || field != "len" then None
      else if vs[0].StrV? then Some(Ok(IntV(|vs[0].text|)))
      else if vs[0].CharV? then Some(Raised(Exn(Error, "cannot take the length of character")))
      else None
    case Binary(bop) => if |vs| == 2 then VmBinary(bop, vs[0], vs[1]) else None
    case _ => None
  }

  function VmBinary(op: BinOp, l: Value, r: Value): Option<Outcome> {
    if !Basic(l) || !Basic(r) then None
    else if op == Eq then Some(Ok(BoolV(Same(l, r))))
    else if op == Ne then Some(Ok(BoolV(!Same(l, r))))
    else if AsInt(l).Some? && AsInt(r).Some? then VmInts(op, AsInt(l).value, AsInt(r).value)
    else if op == Add && Display(l).Some? && Display(r).Some? then Some(Ok(StrV(Display(l).value + Display(r).value)))
    else None
  }

  function VmInts(op: BinOp, a: int, b: int): Option<Outcome> {
    if Compared(op, a, b).Some? then Some(Ok(BoolV(Compared(op, a, b).value)))
    else if Exactly(op, a, b).None? then None
    else if IsI64(Exactly(op, a, b).value) then Some(Ok(IntV(Exactly(op, a, b).value)))
    else
      match op
      case Add => Some(Overflowed("integer addition"))
      case Sub => Some(Overflowed("integer subtraction"))
      case Mul => Some(Overflowed("integer multiplication"))
      case _ => None
  }

  ghost predicate VmOps(env: Env) {
    forall op, vs, heap {:trigger env.prim(op, vs, heap)} | VmOp(op, vs).Some? ::
      env.prim(op, vs, heap) == (VmOp(op, vs).value, heap)
  }

  /** What an expression that folds runs to while `_` holds `x`. */
  function RunOf(e: Expr, x: Value): Option<Outcome> {
    match e
    case Literal(NullLit) => Some(Ok(NullV))
    case Literal(BoolLit(b)) => Some(Ok(BoolV(b)))
    case Literal(IntLit(i)) => Some(Ok(IntV(i)))
    case Literal(StrLit(s)) => Some(Ok(StrV(s)))
    case Literal(CharLit(c)) => Some(Ok(CharV(c)))
    case Ident(name) => if name == "_" then Some(Ok(x)) else None
    case Logical(isAnd, left, right) =>
      var l := RunOf(left, x);
      if !Ran(l) then l else if IsTruthy(l.value.value) == isAnd then RunOf(right, x) else l
    case Apply(op, xs) =>
      if |xs| == 1 then
        var k := RunOf(xs[0], x);
        if !Ran(k) then k else VmOp(op, [k.value.value])
      else if |xs| == 2 then
        var l := RunOf(xs[0], x);
        if !Ran(l) then l
        else
          var r := RunOf(xs[1], x);
          if !Ran(r) then r else VmOp(op, [l.value.value, r.value.value])
      else None
    case _ => None
  }

  predicate Ran(r: Option<Outcome>) {
    r.Some? && r.value.Ok?
  }

  // ---- when they agree ----

  /** What may stand for a constant at run time: a character for a string of one, and for a
      boolean any value of its truth, as `&&` and `||` leave an operand. */
  predicate Kin(k: Const, v: Value) {
    match k
    case BoolC(b) => Basic(v) && IsTruthy(v) == b
    case TextC(s) => Display(v) == Some(s)
    case _ => v == ValueOf(k)
  }

  /** The character 0 is false, the string of it is true. */
  predicate Misread(k: Const, v: Value) {
    k.TextC? && v == CharV(0)
  }

  /** When one operator's result is the folded constant, its operand standing for `k`. */
  predicate OneAgrees(op: Op, k: Const, v: Value) {
    match op
    case Unary(Not) => !Misread(k, v)
    case Unary(Neg) => k.IntC? ==> IsI64(0 - k.i)
    case _ => v.StrV?
  }

  /** When a binary operator's is. */
  predicate TwoAgree(op: BinOp, l: Const, r: Const, v: Value, w: Value) {
    if l.IntC? && r.IntC? then
      && (op in {Eq, Ne} ==> l.i == r.i || ToDouble(l.i) != ToDouble(r.i))
      && (Exactly(op, l.i, r.i).Some? ==> IsI64(Exactly(op, l.i, r.i).value))
    else if l.BoolC? && r.BoolC? then l.b != r.b || Same(v, w)
    else if op == Add then v.StrV? || w.StrV?
    else v.StrV? == w.StrV? || l != r
  }

  /** When the operand that `&&` or `||` leaves has the folded truth; `w` is the right one's
      value if it is reached. */
  predicate LogicalAgrees(isAnd: bool, l: Const, v: Value, r: Const, w: Value) {
    && (Misread(l, v) ==> if isAnd then !Truthy(r) else IsTruthy(w))
    && (IsTruthy(v) == isAnd ==> !Misread(r, w))
  }

  lemma WrappedExactly(x: int)
    ensures Wrapped(x) == x <==> IsI64(x)
  {
  }

  lemma KinTruth(k: Const, v: Value)
    requires Kin(k, v)
    ensures Basic(v) && (IsTruthy(v) == Truthy(k) <==> !Misread(k, v))
  {
  }

  lemma OneExactly(op: Op, k: Const, v: Value)
    requires FoldOne(op, k).Some? && Kin(k, v)
    ensures VmOp(op, [v]) == Some(Ok(ValueOf(FoldOne(op, k).value))) <==> OneAgrees(op, k, v)
    ensures Ran(VmOp(op, [v])) ==> (Kin(FoldOne(op, k).value, VmOp(op, [v]).value.value) <==> OneAgrees(op, k, v))
  {
    if k.IntC? {
      WrappedExactly(0 - k.i);
    }
    KinTruth(k, v);
  }

  /** Integers: equality is lost where rounding makes two of them equal, arithmetic where the
      exact result does not fit. Comparisons are computed alike. */
  lemma IntsExactly(op: BinOp, a: int, b: int)
    requires FoldBinary(op, IntC(a), IntC(b)).Some?
    ensures VmBinary(op, IntV(a), IntV(b)) == Some(Ok(ValueOf(FoldBinary(op, IntC(a), IntC(b)).value)))
            <==> TwoAgree(op, IntC(a), IntC(b), IntV(a), IntV(b))
  {
    hide ToDouble, Wrapped, Quotient, Remainder;
    if Exactly(op, a, b).Some? {
      WrappedExactly(Exactly(op, a, b).value);
    }
  }

  lemma TwoExactly(op: BinOp, l: Const, r: Const, v: Value, w: Value)
    requires FoldBinary(op, l, r).Some? && Kin(l, v) && Kin(r, w)
    ensures VmBinary(op, v, w) == Some(Ok(ValueOf(FoldBinary(op, l, r).value))) <==> TwoAgree(op, l, r, v, w)
  {
    if l.IntC? && r.IntC? {
      IntsExactly(op, l.i, r.i);
    } else {
      hide ToDouble, Wrapped, Quotient, Remainder, Compared, Exactly, VmInts;
      SameTruth(v, w);
    }
  }

  lemma SameTruth(v: Value, w: Value)
    ensures Same(v, w) ==> IsTruthy(v) == IsTruthy(w)
  {
  }

  // ---- substitution ----

  /** What is evaluated: the constraint with `_` renamed, or the expression itself. */
  function Renamed(e: Expr, under: Option<Const>, name: string): Option<Expr> {
    if under.Some? then Subst(e, name) else Some(e)
  }

  /** Everything that folds can be renamed. */
  lemma {:induction false} FoldsRename(e: Expr, under: Option<Const>, name: string)
    requires Fold(e, under).Some?
    ensures Subst(e, name).Some?
    decreases e
  {
    hide FoldBinary, FoldOne;
    match e
    case Logical(_, left, right) =>
      FoldsRename(left, under, name);
      FoldsRename(right, under, name);
    case Apply(op, xs) =>
      FoldsRename(xs[0], under, name);
      if |xs| == 2 {
        FoldsRename(xs[1], under, name);
        TwoRenamed(xs, name);
      } else {
        OneRenamed(xs, name);
        FoldOneOps(op, Fold(xs[0], under).value);
      }
    case _ =>
  }

  lemma FoldOneOps(op: Op, k: Const)
    requires FoldOne(op, k).Some?
    ensures op.Unary? || op.MemberGet?
  {
  }

  lemma OneRenamed(xs: seq<Expr>, name: string)
    requires |xs| == 1 && Subst(xs[0], name).Some?
    ensures SubstAll(xs, name) == Some([Subst(xs[0], name).value])
  {
    hide Subst;
    assert SubstAll(xs[1..], name) == Some([]);
    assert [Subst(xs[0], name).value] + [] == [Subst(xs[0], name).value];
  }

  lemma TwoRenamed(xs: seq<Expr>, name: string)
    requires |xs| == 2 && Subst(xs[0], name).Some? && Subst(xs[1], name).Some?
    ensures SubstAll(xs, name) == Some([Subst(xs[0], name).value, Subst(xs[1], name).value])
  {
    hide Subst;
    OneRenamed(xs[1..], name);
    assert [Subst(xs[0], name).value] + [Subst(xs[1], name).value]
      == [Subst(xs[0], name).value, Subst(xs[1], name).value];
  }

  // ---- the run ----

  lemma EvalOne(env: Env, x: Expr, st: State, depth: nat, fuel: nat, v: Value)
    requires Eval(env, x, st, depth, fuel) == Val(v, st)
    ensures EvalAll(env, [x], st, depth, fuel) == Vals([v], st)
  {
    hide Eval;
    assert EvalAll(env, [x][1..], st, depth, fuel) == Vals([], st);
    assert [v] + [] == [v];
  }

  lemma EvalTwo(env: Env, x: Expr, y: Expr, st: State, depth: nat, fuel: nat, v: Value, w: Value)
    requires Eval(env, x, st, depth, fuel) == Val(v, st) && Eval(env, y, st, depth, fuel) == Val(w, st)
    ensures EvalAll(env, [x, y], st, depth, fuel) == Vals([v, w], st)
  {
    hide Eval;
    EvalOne(env, y, st, depth, fuel, w);
    assert [x, y][1..] == [y];
    assert [v] + [w] == [v, w];
  }

  function AsResult(r: Outcome, st: State): ExprResult {
    match r case Ok(v) => Val(v, st) case Raised(x) => Fault(x, st)
  }

  lemma OperatorRuns(env: Env, op: Op, vs: seq<Value>, st: State)
    requires VmOps(env) && VmOp(op, vs).Some?
    ensures ApplyPrim(env, op, vs, st) == AsResult(VmOp(op, vs).value, st)
  {
    hide VmOp;
    assert env.prim(op, vs, st.w.heap) == (VmOp(op, vs).value, st.w.heap);
    assert st.(w := st.w.(heap := st.w.heap)) == st;
  }

  /** An expression that folds, run with `_` renamed to a name that holds `x`, ends as its
      run says, whether that is the folded constant or not, and changes nothing. */
  lemma {:induction false} FoldRuns(env: Env, e: Expr, under: Option<Const>, x: Value, name: string, st: State,
      depth: nat, fuel: nat)
    requires VmOps(env) && Fold(e, under).Some? && RunOf(e, x).Some?
    requires under.Some? ==> LoadName(name, st.sc, st.w) == Ok(x)
    ensures Renamed(e, under, name).Some?
    ensures Eval(env, Renamed(e, under, name).value, st, depth, fuel) == AsResult(RunOf(e, x).value, st)
    decreases e, 1
  {
    FoldsRename(e, under, name);
    hide VmOps, FoldOne, FoldBinary, SubstAll, EvalAll, VmOp;
    match e {
      case Literal(_) =>
      case Ident(_) =>
      case Logical(_, left, right) =>
        FoldRuns(env, left, under, x, name, st, depth, fuel);
        var l := RunOf(left, x);
        if Ran(l) && IsTruthy(l.value.value) == e.isAnd {
          FoldRuns(env, right, under, x, name, st, depth, fuel);
        }
      case Apply(_, xs) =>
        if |xs| == 1 {
          OneRuns(env, e, under, x, name, st, depth, fuel);
        } else {
          TwoRuns(env, e, under, x, name, st, depth, fuel);
        }
      case Call(_, _) => assert false;
    }
  }

  lemma RenamedOne(e: Expr, under: Option<Const>, name: string)
    requires e.Apply? && |e.operands| == 1 && Fold(e, under).Some?
    ensures Renamed(e.operands[0], under, name).Some?
    ensures Renamed(e, under, name) == Some(Expr.Apply(e.op, [Renamed(e.operands[0], under, name).value]))
  {
    var xs := e.operands;
    FoldsRename(xs[0], under, name);
    FoldOneOps(e.op, Fold(xs[0], under).value);
    hide FoldOne, Fold;
    OneRenamed(xs, name);
    assert xs == [xs[0]];
  }

  lemma RenamedTwo(e: Expr, under: Option<Const>, name: string)
    requires e.Apply? && |e.operands| == 2 && Fold(e, under).Some?
    ensures
      var x, y := Renamed(e.operands[0], under, name), Renamed(e.operands[1], under, name);
      x.Some? && y.Some? && Renamed(e, under, name) == Some(Expr.Apply(e.op, [x.value, y.value]))
  {
    var xs := e.operands;
    FoldsRename(xs[0], under, name);
    FoldsRename(xs[1], under, name);
    assert e.op.Binary?;
    hide FoldBinary, Fold;
    TwoRenamed(xs, name);
    assert xs == [xs[0], xs[1]];
  }

  lemma EvalFirst(env: Env, x: Expr, rest: seq<Expr>, st: State, depth: nat, fuel: nat, exn: Exn)
    requires Eval(env, x, st, depth, fuel) == Fault(exn, st)
    ensures EvalAll(env, [x] + rest, st, depth, fuel) == FaultIn(exn, st)
  {
    hide Eval;
  }

  lemma EvalSecond(env: Env, x: Expr, y: Expr, st: State, depth: nat, fuel: nat, v: Value, exn: Exn)
    requires Eval(env, x, st, depth, fuel) == Val(v, st) && Eval(env, y, st, depth, fuel) == Fault(exn, st)
    ensures EvalAll(env, [x, y], st, depth, fuel) == FaultIn(exn, st)
  {
    hide Eval;
    assert [x, y][1..] == [y] + [];
    EvalFirst(env, y, [], st, depth, fuel, exn);
  }

  lemma {:induction false} OneRuns(env: Env, e: Expr, under: Option<Const>, x: Value, name: string, st: State,
      depth: nat, fuel: nat)
    requires VmOps(env) && e.Apply? && |e.operands| == 1 && Fold(e, under).Some? && RunOf(e, x).Some?
    requires under.Some? ==> LoadName(name, st.sc, st.w) == Ok(x)
    ensures Renamed(e, under, name).Some?
    ensures Eval(env, Renamed(e, under, name).value, st, depth, fuel) == AsResult(RunOf(e, x).value, st)
    decreases e, 0
  {
    RenamedOne(e, under, name);
    hide VmOps, FoldOne, FoldBinary, Subst, SubstAll, EvalAll, VmOp, Renamed, ApplyPrim;
    var one := Renamed(e.operands[0], under, name).value;
    FoldRuns(env, e.operands[0], under, x, name, st, depth, fuel);
    var r := RunOf(e.operands[0], x).value;
    match r {
      case Ok(v) =>
        EvalOne(env, one, st, depth, fuel, v);
        OperatorRuns(env, e.op, [v], st);
      case Raised(exn) =>
        assert [one] + [] == [one];
        EvalFirst(env, one, [], st, depth, fuel, exn);
    }
  }

  lemma {:induction false} TwoRuns(env: Env, e: Expr, under: Option<Const>, x: Value, name: string, st: State,
      depth: nat, fuel: nat)
    requires VmOps(env) && e.Apply? && |e.operands| == 2 && Fold(e, under).Some? && RunOf(e, x).Some?
    requires under.Some? ==> LoadName(name, st.sc, st.w) == Ok(x)
    ensures Renamed(e, under, name).Some?
    ensures Eval(env, Renamed(e, under, name).value, st, depth, fuel) == AsResult(RunOf(e, x).value, st)
    decreases e, 0
  {
    RenamedTwo(e, under, name);
    hide VmOps, FoldOne, FoldBinary, Subst, SubstAll, EvalAll, VmOp, Renamed, ApplyPrim;
    var one, two := Renamed(e.operands[0], under, name).value, Renamed(e.operands[1], under, name).value;
    FoldRuns(env, e.operands[0], under, x, name, st, depth, fuel);
    match RunOf(e.operands[0], x).value {
      case Raised(exn) =>
        assert [one] + [two] == [one, two];
        EvalFirst(env, one, [two], st, depth, fuel, exn);
      case Ok(v) =>
        FoldRuns(env, e.operands[1], under, x, name, st, depth, fuel);
        match RunOf(e.operands[1], x).value {
          case Raised(exn) => EvalSecond(env, one, two, st, depth, fuel, v, exn);
          case Ok(w) =>
            EvalTwo(env, one, two, st, depth, fuel, v, w);
            OperatorRuns(env, e.op, [v, w], st);
        }
    }
  }

  // ---- agreement throughout ----

  /** The value an expression runs to, if it does. */
  function ValueAt(e: Expr, x: Value): Value {
    if Ran(RunOf(e, x)) then RunOf(e, x).value.value else NullV
  }

  /** Everything evaluated meets its operator's condition. */
  predicate Sound(e: Expr, under: Option<Const>, x: Value)
    requires Fold(e, under).Some?
  {
    match e
    case Logical(isAnd, left, right) =>
      && Sound(left, under, x) && (IsTruthy(ValueAt(left, x)) == isAnd ==> Sound(right, under, x))
      && LogicalAgrees(isAnd, Fold(left, under).value, ValueAt(left, x), Fold(right, under).value, ValueAt(right, x))
    case Apply(op, xs) =>
      if |xs| == 1 then Sound(xs[0], under, x) && OneAgrees(op, Fold(xs[0], under).value, ValueAt(xs[0], x))
      else
        && Sound(xs[0], under, x) && Sound(xs[1], under, x)
        && TwoAgree(op.bop, Fold(xs[0], under).value, Fold(xs[1], under).value, ValueAt(xs[0], x), ValueAt(xs[1], x))
    case _ => true
  }

  /** It runs to a value that stands for its constant. */
  predicate Right(e: Expr, under: Option<Const>, x: Value)
    requires Fold(e, under).Some?
  {
    Ran(RunOf(e, x)) && Kin(Fold(e, under).value, RunOf(e, x).value.value)
  }

  /** So does everything evaluated on the way. */
  predicate RightThroughout(e: Expr, under: Option<Const>, x: Value)
    requires Fold(e, under).Some?
  {
    && Right(e, under, x)
    && match e
       case Logical(isAnd, left, right) =>
         RightThroughout(left, under, x) && (IsTruthy(ValueAt(left, x)) == isAnd ==> RightThroughout(right, under, x))
       case Apply(_, xs) => RightThroughout(xs[0], under, x) && (|xs| == 2 ==> RightThroughout(xs[1], under, x))
       case _ => true
  }

  /** Folding and run agree throughout exactly if every operator evaluated meets its own
      condition. */
  lemma {:induction false} SoundExactly(e: Expr, under: Option<Const>, x: Value)
    requires Fold(e, under).Some? && (under.Some? ==> Kin(under.value, x))
    ensures Sound(e, under, x) <==> RightThroughout(e, under, x)
    decreases e
  {
    hide FoldOne, FoldBinary, VmOp, VmBinary, OneAgrees, TwoAgree, LogicalAgrees, Kin, Truthy, IsTruthy, ValueOf;
    match e {
      case Logical(isAnd, left, right) =>
        SoundExactly(left, under, x);
        SoundExactly(right, under, x);
        if RightThroughout(left, under, x) && (IsTruthy(ValueAt(left, x)) == isAnd
          ==> RightThroughout(right, under, x)) {
          LogicalExactly(e, under, x);
        }
      case Apply(op, xs) =>
        SoundExactly(xs[0], under, x);
        var k := Fold(xs[0], under).value;
        if |xs| == 1 {
          if RightThroughout(xs[0], under, x) {
            var v := RunOf(xs[0], x).value.value;
            OneExactly(op, k, v);
            FoldedKin(FoldOne(op, k).value);
          }
        } else {
          SoundExactly(xs[1], under, x);
          if RightThroughout(xs[0], under, x) && RightThroughout(xs[1], under, x) {
            var l, v, w := Fold(xs[1], under).value, RunOf(xs[0], x).value.value, RunOf(xs[1], x).value.value;
            TwoExactly(op.bop, k, l, v, w);
            TwoKin(op.bop, k, l, v, w);
            OnBinary(op, v, w);
          }
        }
      case _ => LeafRight(e, under, x);
    }
  }

  lemma LeafRight(e: Expr, under: Option<Const>, x: Value)
    requires (e.Literal? || e.Ident?) && Fold(e, under).Some? && (under.Some? ==> Kin(under.value, x))
    ensures Right(e, under, x)
  {
  }

  lemma FoldedKin(k: Const)
    ensures Kin(k, ValueOf(k))
  {
  }

  lemma OnBinary(op: Op, v: Value, w: Value)
    requires op.Binary?
    ensures VmOp(op, [v, w]) == VmBinary(op.bop, v, w)
  {
  }

  /** What a binary operator computes stands for the constant only if it is its value. */
  lemma TwoKin(op: BinOp, l: Const, r: Const, v: Value, w: Value)
    requires FoldBinary(op, l, r).Some? && Kin(l, v) && Kin(r, w)
    ensures
      var k, o := FoldBinary(op, l, r).value, VmBinary(op, v, w);
      Ran(o) && Kin(k, o.value.value) <==> o == Some(Ok(ValueOf(k)))
  {
    hide ToDouble, Wrapped, Quotient, Remainder, Same;
  }

  lemma LogicalExactly(e: Expr, under: Option<Const>, x: Value)
    requires e.Logical? && Fold(e, under).Some? && Right(e.left, under, x)
    requires IsTruthy(ValueAt(e.left, x)) == e.isAnd ==> Right(e.right, under, x)
    ensures Right(e, under, x)
            <==> LogicalAgrees(e.isAnd, Fold(e.left, under).value, ValueAt(e.left, x), Fold(e.right, under).value,
              ValueAt(e.right, x))
  {
    var l, r := Fold(e.left, under).value, Fold(e.right, under).value;
    var v, w := ValueAt(e.left, x), ValueAt(e.right, x);
    KinTruth(l, v);
    if IsTruthy(v) == e.isAnd {
      KinTruth(r, w);
    }
    hide Fold, RunOf, Basic;
  }

  // ---- temporaries ----

  function Decimal(n: nat): (r: string)
    ensures r != [] && (|r| >= 2 <==> n >= 10) && forall c | c in r :: '0' <= c <= '9'
  {
    if n < 10 then [Digit(n)] else Decimal(n / 10) + [Digit(n % 10)]
  }

  function Digit(d: nat): (c: char)
    requires d < 10
    ensures '0' <= c <= '9'
  {
    (d + 48) as char
  }

  lemma {:induction false} DecimalInjective(m: nat, n: nat)
    requires Decimal(m) == Decimal(n)
    ensures m == n
    decreases m + n
  {
    var a, b := Decimal(m), Decimal(n);
    assert a[|a| - 1] == Digit(m % 10) && b[|b| - 1] == Digit(n % 10);
    if m >= 10 {
      assert a[..|a| - 1] == Decimal(m / 10) && b[..|b| - 1] == Decimal(n / 10);
      DecimalInjective(m / 10, n / 10);
    }
  }

  /** The temporary of field `i` in the `batch`-th constrained construction of a package. */
  function Temporary(batch: nat, i: nat): string {
    "__munx_c" + Decimal(batch) + "_" + Decimal(i)
  }

  lemma UnderscoreIn(a: string, b: string, c: string, d: string)
    requires a + "_" + b == c + "_" + d && |a| < |c|
    ensures '_' in c
  {
    assert (a + "_" + b)[|a|] == '_' && (c + "_" + d)[|a|] == c[|a|];
  }

  lemma DigitsSplit(a: string, b: string, c: string, d: string)
    requires a + "_" + b == c + "_" + d && '_' !in a && '_' !in c
    ensures a == c && b == d
  {
    var w := a + "_" + b;
    if |a| < |c| {
      UnderscoreIn(a, b, c, d);
    } else if |c| < |a| {
      UnderscoreIn(c, d, a, b);
    }
    assert w[..|a|] == a && w[..|c|] == c && w[|a| + 1..] == b && w[|c| + 1..] == d;
  }

  /** No two constructions of a package, and no two fields of one, share a temporary. */
  lemma TemporariesDiffer(batch: nat, i: nat, other: nat, j: nat)
    requires Temporary(batch, i) == Temporary(other, j)
    ensures batch == other && i == j
  {
    hide Decimal;
    var s, t := Temporary(batch, i), Temporary(other, j);
    var p := "__munx_c";
    assert s == p + (Decimal(batch) + "_" + Decimal(i)) && t == p + (Decimal(other) + "_" + Decimal(j));
    assert s[|p|..] == Decimal(batch) + "_" + Decimal(i) && t[|p|..] == Decimal(other) + "_" + Decimal(j);
    DigitsSplit(Decimal(batch), Decimal(i), Decimal(other), Decimal(j));
    DecimalInjective(batch, other);
    DecimalInjective(i, j);
  }

  /** The arguments' values stored in their temporaries, from field `i` on. */
  function Stored(batch: nat, i: nat, vs: seq<Value>, st: State): State
    decreases |vs|
  {
    if vs == [] then st else Stored(batch, i + 1, vs[1..], BindName(Temporary(batch, i), vs[0], st))
  }

  lemma StoreLoads(name: string, v: Value, st: State)
    ensures LoadName(name, BindName(name, v, st).sc, BindName(name, v, st).w) == Ok(v)
  {
  }

  lemma StoreKeeps(name: string, v: Value, st: State, other: string)
    requires name != other
    ensures LoadName(other, BindName(name, v, st).sc, BindName(name, v, st).w) == LoadName(other, st.sc, st.w)
  {
  }

  lemma {:induction false} StoredBefore(batch: nat, i: nat, vs: seq<Value>, st: State, j: nat)
    requires j < i
    ensures LoadName(Temporary(batch, j), Stored(batch, i, vs, st).sc, Stored(batch, i, vs, st).w)
            == LoadName(Temporary(batch, j), st.sc, st.w)
    decreases |vs|
  {
    hide LoadName, BindName, Temporary;
    if vs != [] {
      var name := Temporary(batch, i);
      if name == Temporary(batch, j) {
        TemporariesDiffer(batch, i, batch, j);
      }
      StoreKeeps(name, vs[0], st, Temporary(batch, j));
      StoredBefore(batch, i + 1, vs[1..], BindName(name, vs[0], st), j);
    }
  }

  /** Every temporary holds its own argument once all are stored. */
  lemma {:induction false} StoredLoads(batch: nat, i: nat, vs: seq<Value>, st: State, j: nat)
    requires i <= j < i + |vs|
    ensures LoadName(Temporary(batch, j), Stored(batch, i, vs, st).sc, Stored(batch, i, vs, st).w) == Ok(vs[j - i])
    decreases |vs|
  {
    hide LoadName, BindName, Temporary;
    var st1 := BindName(Temporary(batch, i), vs[0], st);
    if j == i {
      StoreLoads(Temporary(batch, i), vs[0], st);
      StoredBefore(batch, i + 1, vs[1..], st1, i);
    } else {
      StoredLoads(batch, i + 1, vs[1..], st1, j);
    }
  }

  // ---- constructors ----

  datatype FieldSchema = FieldSchema(name: string, constraint: Option<Expr>)

  /** The type checker looks at a field if its argument and then its constraint fold. */
  predicate Seen(field: FieldSchema, arg: Expr) {
    field.constraint.Some? && Fold(arg, None).Some? && Fold(field.constraint.value, Fold(arg, None)).Some?
  }

  /** Its verdict on one field. */
  predicate Rejected(field: FieldSchema, arg: Expr) {
    Seen(field, arg) && !Truthy(Fold(field.constraint.value, Fold(arg, None)).value)
  }

  /** A field's argument and its constraint, as long as every operator agrees. */
  predicate Regular(field: FieldSchema, arg: Expr, x: Value)
    requires Seen(field, arg)
  {
    Sound(arg, None, NullV) && RunOf(arg, NullV) == Some(Ok(x)) && Sound(field.constraint.value, Fold(arg, None), x)
  }

  /** An argument that folds runs to what its run says and changes nothing. */
  lemma ArgumentRuns(env: Env, arg: Expr, st: State, depth: nat, fuel: nat)
    requires VmOps(env) && Fold(arg, None).Some? && RunOf(arg, NullV).Some?
    ensures Eval(env, arg, st, depth, fuel) == AsResult(RunOf(arg, NullV).value, st)
  {
    hide Eval, Fold, RunOf, VmOps;
    FoldRuns(env, arg, None, NullV, "_", st, depth, fuel);
  }

  /** Field `j` is seen by the type checker; the other arguments may be anything and have any
      values. With all stored, the compiled check runs as its constraint does on the value
      of field `j`, and changes nothing. */
  lemma CheckRuns(env: Env, batch: nat, field: FieldSchema, arg: Expr, vs: seq<Value>, st: State, depth: nat, fuel: nat,
      j: nat)
    requires VmOps(env) && Seen(field, arg) && j < |vs| && RunOf(field.constraint.value, vs[j]).Some?
    ensures
      var check, st1 := Subst(field.constraint.value, Temporary(batch, j)), Stored(batch, 0, vs, st);
      check.Some? && Eval(env, check.value, st1, depth, fuel)
        == AsResult(RunOf(field.constraint.value, vs[j]).value, st1)
  {
    hide Eval, Fold, RunOf, VmOps, Temporary, Subst;
    var st1 := Stored(batch, 0, vs, st);
    StoredLoads(batch, 0, vs, st, j);
    FoldRuns(env, field.constraint.value, Fold(arg, None), vs[j], Temporary(batch, j), st1, depth, fuel);
  }

  /** Where every operator agrees, the check does not fault, and it passes exactly if the type
      checker did not reject the field, unless the constraint is the character 0 alone. */
  lemma CheckAgrees(env: Env, batch: nat, field: FieldSchema, arg: Expr, vs: seq<Value>, st: State, depth: nat,
      fuel: nat, j: nat)
    requires VmOps(env) && Seen(field, arg) && j < |vs| && Regular(field, arg, vs[j])
    ensures
      var check, st1 := Subst(field.constraint.value, Temporary(batch, j)), Stored(batch, 0, vs, st);
      check.Some? && var r := Eval(env, check.value, st1, depth, fuel);
      r.Val? && r.st == st1
      && ((IsTruthy(r.v) <==> !Rejected(field, arg))
        <==> !Misread(Fold(field.constraint.value, Fold(arg, None)).value, r.v))
  {
    hide Eval, Fold, RunOf, VmOps, Temporary, Subst, Sound, Kin;
    var k := Fold(arg, None);
    SoundExactly(arg, None, NullV);
    SoundExactly(field.constraint.value, k, vs[j]);
    CheckRuns(env, batch, field, arg, vs, st, depth, fuel, j);
    KinTruth(Fold(field.constraint.value, k).value, RunOf(field.constraint.value, vs[j]).value.value);
  }

  // ---- where they do not ----

  function Two(op: BinOp, left: Expr, right: Expr): Expr {
    Expr.Apply(Binary(op), [left, right])
  }

  /** `(_ && 2) == true` holds of 1 for the type checker, but not at run time: `&&` leaves
      its operand. */
  lemma LogicalCompared(env: Env, st: State, depth: nat, fuel: nat)
    requires VmOps(env) && LoadName("t", st.sc, st.w) == Ok(IntV(1))
    ensures
      var e := Two(Eq, Logical(true, Ident("_"), Literal(IntLit(2))), Literal(BoolLit(true)));
      Fold(e, Some(IntC(1))) == Some(BoolC(true)) && Subst(e, "t").Some?
        && Eval(env, Subst(e, "t").value, st, depth, fuel) == Val(BoolV(false), st)
  {
    hide Eval, VmOps, Subst;
    var e := Two(Eq, Logical(true, Ident("_"), Literal(IntLit(2))), Literal(BoolLit(true)));
    FoldRuns(env, e, Some(IntC(1)), IntV(1), "t", st, depth, fuel);
  }

  /** 2^53 + 1 equals 2^53 for the type checker, but not at run time. */
  lemma EqualRounded(env: Env, st: State, depth: nat, fuel: nat)
    requires VmOps(env) && LoadName("t", st.sc, st.w) == Ok(IntV(Mantissa + 1))
    ensures
      var e := Two(Eq, Ident("_"), Literal(IntLit(Mantissa)));
      Fold(e, Some(IntC(Mantissa + 1))) == Some(BoolC(true)) && Subst(e, "t").Some?
      && Eval(env, Subst(e, "t").value, st, depth, fuel) == Val(BoolV(false), st)
  {
    hide Eval, VmOps, Subst;
    ToDoubleExact(Mantissa);
    assert ToDouble(Mantissa + 1) == Mantissa by {
      assert Excess((Mantissa + 1) / 2) == 0 && Excess(Mantissa + 1) == 1 && Pow2(1) == 2 * Pow2(0) == 2;
    }
    hide ToDouble;
    FoldRuns(env, Two(Eq, Ident("_"), Literal(IntLit(Mantissa))), Some(IntC(Mantissa + 1)), IntV(Mantissa + 1), "t", st,
      depth, fuel);
  }

  /** `_ + 1 < 0` holds of the greatest integer for the type checker; at run time it faults. */
  lemma SumWraps(env: Env, st: State, depth: nat, fuel: nat)
    requires VmOps(env) && LoadName("t", st.sc, st.w) == Ok(IntV(0x7fff_ffff_ffff_ffff))
    ensures
      var e := Two(Lt, Two(Add, Ident("_"), Literal(IntLit(1))), Literal(IntLit(0)));
      && Fold(e, Some(IntC(0x7fff_ffff_ffff_ffff))) == Some(BoolC(true))
      && Subst(e, "t").Some? && Eval(env, Subst(e, "t").value, st, depth, fuel)
        == Fault(Exn(Overflow, "integer addition"), st)
  {
    hide Eval, VmOps, Subst, ToDouble;
    var greatest := 0x7fff_ffff_ffff_ffff;
    var sum := Two(Add, Ident("_"), Literal(IntLit(1)));
    assert Fold(sum, Some(IntC(greatest))) == Some(IntC(-greatest - 1))
      && RunOf(sum, IntV(greatest)) == Some(Overflowed("integer addition"));
    ToDoubleOrder(-greatest - 1, -1);
    ToDoubleExact(-1);
    ToDoubleExact(0);
    FoldRuns(env, Two(Lt, sum, Literal(IntLit(0))), Some(IntC(greatest)), IntV(greatest), "t", st, depth, fuel);
  }

  /** `'a' == "a"` is true for the type checker, but not at run time. */
  lemma CharFolded(env: Env, st: State, depth: nat, fuel: nat)
    requires VmOps(env)
    ensures
      var e := Two(Eq, Literal(CharLit(97)), Literal(StrLit("a")));
      Fold(e, None) == Some(BoolC(true)) && Eval(env, e, st, depth, fuel) == Val(BoolV(false), st)
  {
    hide Eval, VmOps, Subst;
    FoldRuns(env, Two(Eq, Literal(CharLit(97)), Literal(StrLit("a"))), None, NullV, "_", st, depth, fuel);
  }

  /** `!_` does not hold of the character 0 for the type checker, but does at run time. */
  lemma ZeroNegated(env: Env, st: State, depth: nat, fuel: nat)
    requires VmOps(env) && LoadName("t", st.sc, st.w) == Ok(CharV(0))
    ensures
      var e := Expr.Apply(Unary(Not), [Ident("_")]);
      Fold(Literal(CharLit(0)), None) == Some(TextC([0 as char]))
        && Fold(e, Some(TextC([0 as char]))) == Some(BoolC(false))
      && Subst(e, "t").Some? && Eval(env, Subst(e, "t").value, st, depth, fuel) == Val(BoolV(true), st)
  {
    hide Eval, VmOps, Subst;
    FoldRuns(env, Expr.Apply(Unary(Not), [Ident("_")]), Some(TextC([0 as char])), CharV(0), "t", st, depth, fuel);
  }
}
