/** The operand stack of compiled code: no path underflows, and if no `break` crosses a
    `match`, every offset is reached with one depth only. */
module Depths {
  import opened Syntax
  import opened Semantics
  import opened Machine
  import opened Layout
  import opened Listing
  import opened Breaks

  /** The protected block of a `monitor`: faults from `start` up to `handler` go there. */
  datatype Region = Region(start: nat, handler: nat)

  /** What is known of an offset: the depth of the stack, the protected blocks around it,
      outermost first, and whether it belongs to the jump behind a protected block. */
  datatype Mark = Mark(depth: nat, inside: seq<Region>, quiet: bool)

  type Marks = nat -> Mark

  function Pops(i: Instr): nat {
    match i
    case Pop => 1
    case Dup => 1
    case Swap => 2
    case Store(_) => 1
    case Do(op) => Arity(op)
    case JmpIfFalse(_) => 1
    case JmpIfTrue(_) => 1
    case CallN(argc) => argc + 1
    case Ret => 1
    case Unpack(_) => 1
    case _ => 0
  }

  function Pushes(i: Instr): nat {
    match i
    case Push(_) => 1
    case Dup => 2
    case Swap => 2
    case Load(_) => 1
    case Do(_) => 1
    case CallN(_) => 1
    case Unpack(n) => n
    case _ => 0
  }

  function After(i: Instr, h: nat): nat
    requires Pops(i) <= h
  {
    h - Pops(i) + Pushes(i)
  }

  /** Control may come to `q` with depth `h` from inside the blocks `rs`. */
  predicate Edge(m: Marks, q: nat, h: nat, rs: seq<Region>, exact: bool) {
    m(q).depth <= h && (exact ==> m(q).depth == h) && m(q).inside <= rs
  }

  /** The blocks are left one by one: each handler lies in those around its own. */
  predicate Nested(m: Marks, rs: seq<Region>) {
    forall j {:trigger rs[j]} | 0 <= j < |rs| :: m(rs[j].handler).inside <= rs[..j]
  }

  /** `h` is at least the depth at which the innermost block was entered. */
  predicate Above(m: Marks, rs: seq<Region>, h: nat) {
    rs == [] || m(rs[|rs| - 1].handler).depth <= h + 1
  }

  /** A protected block is entered: its handler expects the depth here and the exception,
      and nothing up to the handler is outside the block but the jump that leaves it. */
  ghost predicate Enters(m: Marks, p: nat, next: nat, t: nat, exact: bool) {
    && Edge(m, next, m(p).depth, m(p).inside + [Region(next, t)], exact)
    && m(t).depth == m(p).depth + 1 && m(t).inside <= m(p).inside && Region(next, t) !in m(p).inside
    && forall q: nat {:trigger m(q)} | next <= q < t :: Region(next, t) in m(q).inside || m(q).quiet
  }

  /** The instruction at `p` finds its operands above everything the protected blocks around
      it hold on to, and leaves for offsets of the right depth. */
  ghost predicate Flow(m: Marks, p: nat, i: Instr, exact: bool) {
    var k := m(p);
    && Pops(i) <= k.depth && Nested(m, k.inside) && Above(m, k.inside, k.depth - Pops(i)) && (k.quiet ==> i.Jmp?)
    && match i
       case Jmp(t) => Edge(m, t, k.depth, k.inside, exact)
       case JmpIfFalse(t) => Edge(m, t, k.depth - 1, k.inside, exact)
         && Edge(m, p + Width(i), k.depth - 1, k.inside, exact)
       case JmpIfTrue(t) => Edge(m, t, k.depth - 1, k.inside, exact)
         && Edge(m, p + Width(i), k.depth - 1, k.inside, exact)
       case MonitorEnter(t) => Enters(m, p, p + Width(i), t, exact)
       case MonitorExit => k.inside != [] && Edge(m, p + Width(i), k.depth, k.inside[..|k.inside| - 1], exact)
       case Ret => true
       case Halt => true
       case _ => Edge(m, p + Width(i), After(i, k.depth), k.inside, exact)
  }

  ghost predicate Flows(m: Marks, list: seq<Instr>, at: nat, end: nat, exact: bool)
    decreases |list|
  {
    if list == [] then at == end
    else Flow(m, at, list[0], exact) && Flows(m, list[1..], at + Width(list[0]), end, exact)
  }

  lemma {:induction false} Joined(m: Marks, a: seq<Instr>, b: seq<Instr>, at: nat, mid: nat, end: nat, exact: bool)
    requires Flows(m, a, at, mid, exact) && Flows(m, b, mid, end, exact)
    ensures Flows(m, a + b, at, end, exact)
    decreases |a|
  {
    hide Flow;
    if a == [] {
      assert a + b == b;
    } else {
      Joined(m, a[1..], b, at + Width(a[0]), mid, end, exact);
      hide Width;
      assert (a + b)[0] == a[0] && (a + b)[1..] == a[1..] + b;
    }
  }

  lemma FourJoined(m: Marks, a: seq<Instr>, b: seq<Instr>, c: seq<Instr>, d: seq<Instr>, p0: nat, p1: nat, p2: nat,
      p3: nat, p4: nat, exact: bool)
    requires Flows(m, a, p0, p1, exact) && Flows(m, b, p1, p2, exact) && Flows(m, c, p2, p3, exact)
      && Flows(m, d, p3, p4, exact)
    ensures Flows(m, a + (b + (c + d)), p0, p4, exact)
  {
    hide Flows;
    Joined(m, c, d, p2, p3, p4, exact);
    Joined(m, b, c + d, p1, p2, p4, exact);
    Joined(m, a, b + (c + d), p0, p1, p4, exact);
  }

  lemma Single(m: Marks, i: Instr, at: nat, exact: bool)
    requires Flow(m, at, i, exact)
    ensures Flows(m, [i], at, at + Width(i), exact)
  {
    hide Flow;
    assert [i][1..] == [];
  }

  // ---- expressions: from depth d to d + 1 ----

  function ExprDepth(e: Expr, at: nat, d: nat, pc: nat): nat
    decreases e, 1
  {
    match e
    case Apply(_, xs) => if pc < at + SizeExprs(xs) then ExprsDepth(xs, at, d, pc) else d + |xs|
    case Logical(_, left, right) =>
      var mid := at + SizeExpr(left);
      if pc < mid then ExprDepth(left, at, d, pc)
      else if pc < mid + 7 then d + if pc == mid + 1 then 2 else 1
      else ExprDepth(right, mid + 7, d, pc)
    case Call(callee, args) =>
      var mid := at + SizeExpr(callee);
      if pc < mid then ExprDepth(callee, at, d, pc)
      else if pc < mid + SizeExprs(args) then ExprsDepth(args, mid, d + 1, pc)
      else d + 1 + |args|
    case _ => d
  }

  function ExprsDepth(es: seq<Expr>, at: nat, d: nat, pc: nat): nat
    decreases es, 0
  {
    if es == [] then d
    else if pc < at + SizeExpr(es[0]) then ExprDepth(es[0], at, d, pc)
    else ExprsDepth(es[1..], at + SizeExpr(es[0]), d + 1, pc)
  }

  ghost predicate OnExpr(m: Marks, e: Expr, at: nat, d: nat, rs: seq<Region>) {
    forall pc: nat {:trigger m(pc)} | at <= pc < at + SizeExpr(e) :: m(pc) == Mark(ExprDepth(e, at, d, pc), rs, false)
  }

  ghost predicate OnExprs(m: Marks, es: seq<Expr>, at: nat, d: nat, rs: seq<Region>) {
    forall pc: nat {:trigger m(pc)} | at <= pc < at + SizeExprs(es) ::
      m(pc) == Mark(ExprsDepth(es, at, d, pc), rs, false)
  }

  /** The offset a construct inside the blocks `rs` goes on to. */
  predicate Goes(m: Marks, q: nat, h: nat, rs: seq<Region>) {
    m(q).depth == h && m(q).inside <= rs
  }

  /** Code at depth `d` or more may stand inside the blocks `rs`. */
  predicate Fits(m: Marks, rs: seq<Region>, d: nat) {
    Nested(m, rs) && Above(m, rs, d)
  }

  lemma {:induction false} ExprFlows(m: Marks, e: Expr, at: nat, d: nat, rs: seq<Region>, exact: bool)
    requires WfExpr(e) && OnExpr(m, e, at, d, rs) && Goes(m, at + SizeExpr(e), d + 1, rs)
    requires Fits(m, rs, d)
    ensures Goes(m, at, d, rs) && Flows(m, ExprCode(e, at), at, at + SizeExpr(e), exact)
    decreases e, 1
  {
    hide Flows, Flow, ExprsDepth, ExprsCode;
    match e {
      case Literal(l) =>
        assert m(at) == Mark(d, rs, false);
        PlainFlow(m, Push(l), at, rs, exact);
      case Ident(name) =>
        assert m(at) == Mark(d, rs, false);
        PlainFlow(m, Load(name), at, rs, exact);
      case Apply(op, xs) =>
        var mid := at + SizeExprs(xs);
        assert m(mid) == Mark(d + |xs|, rs, false);
        PlainFlow(m, Do(op), mid, rs, exact);
        ExprsFlow(m, xs, at, d, rs, exact);
        Joined(m, ExprsCode(xs, at), [Do(op)], at, mid, mid + OpWidth(op), exact);
      case Logical(_, _, _) => LogicalFlows(m, e, at, d, rs, exact);
      case Call(_, _) => CallFlows(m, e, at, d, rs, exact);
    }
  }

  /** An instruction without jumps. */
  lemma PlainFlow(m: Marks, i: Instr, at: nat, rs: seq<Region>, exact: bool)
    requires !i.Jmp? && !i.JmpIfFalse? && !i.JmpIfTrue? && !i.MonitorEnter? && !i.MonitorExit? && !i.Ret? && !i.Halt?
    requires m(at).inside == rs && !m(at).quiet && Pops(i) <= m(at).depth && Fits(m, rs, m(at).depth - Pops(i))
    requires Goes(m, at + Width(i), After(i, m(at).depth), rs)
    ensures Flows(m, [i], at, at + Width(i), exact)
  {
    Single(m, i, at, exact);
  }

  lemma TestFlow(m: Marks, i: Instr, at: nat, t: nat, rs: seq<Region>, exact: bool)
    requires i == JmpIfFalse(t) || i == JmpIfTrue(t)
    requires m(at).inside == rs && !m(at).quiet && 1 <= m(at).depth && Fits(m, rs, m(at).depth - 1)
    requires Goes(m, at + 5, m(at).depth - 1, rs) && Goes(m, t, m(at).depth - 1, rs)
    ensures Flows(m, [i], at, at + 5, exact)
  {
    Single(m, i, at, exact);
  }

  lemma JumpFlow(m: Marks, at: nat, t: nat, exact: bool)
    requires Edge(m, t, m(at).depth, m(at).inside, exact) && Fits(m, m(at).inside, m(at).depth)
    ensures Flows(m, [Jmp(t)], at, at + 5, exact)
  {
    Single(m, Jmp(t), at, exact);
  }

  lemma {:induction false} ExprsFlow(m: Marks, es: seq<Expr>, at: nat, d: nat, rs: seq<Region>, exact: bool)
    requires WfExprs(es) && OnExprs(m, es, at, d, rs) && Goes(m, at + SizeExprs(es), d + |es|, rs)
    requires Fits(m, rs, d)
    ensures Goes(m, at, d, rs) && Flows(m, ExprsCode(es, at), at, at + SizeExprs(es), exact)
    decreases es, 0
  {
    hide ExprDepth, ExprCode, Flow, SizeExpr;
    if es != [] {
      var mid := at + SizeExpr(es[0]);
      assert OnExprs(m, es[1..], mid, d + 1, rs);
      ExprsFlow(m, es[1..], mid, d + 1, rs, exact);
      assert OnExpr(m, es[0], at, d, rs);
      ExprFlows(m, es[0], at, d, rs, exact);
      Joined(m, ExprCode(es[0], at), ExprsCode(es[1..], mid), at, mid, at + SizeExprs(es), exact);
    }
  }

  lemma {:induction false} LogicalFlows(m: Marks, e: Expr, at: nat, d: nat, rs: seq<Region>, exact: bool)
    requires e.Logical? && WfExpr(e) && OnExpr(m, e, at, d, rs) && Goes(m, at + SizeExpr(e), d + 1, rs)
    requires Fits(m, rs, d)
    ensures Goes(m, at, d, rs) && Flows(m, ExprCode(e, at), at, at + SizeExpr(e), exact)
    decreases e, 0
  {
    hide Flows, Flow;
    var mid, end := at + SizeExpr(e.left), at + SizeExpr(e);
    var jump := ShortcutJump(e.isAnd, end);
    assert m(mid) == Mark(d + 1, rs, false) && m(mid + 1) == Mark(d + 2, rs, false)
      && m(mid + 6) == Mark(d + 1, rs, false);
    assert OnExpr(m, e.left, at, d, rs);
    ExprFlows(m, e.left, at, d, rs, exact);
    assert OnExpr(m, e.right, mid + 7, d, rs);
    ExprFlows(m, e.right, mid + 7, d, rs, exact);
    ShortcutFlows(m, jump, mid, end, d, rs, exact);
    var right := ExprCode(e.right, mid + 7);
    Joined(m, [Dup, jump, Pop], right, mid, mid + 7, end, exact);
    Joined(m, ExprCode(e.left, at), [Dup, jump, Pop] + right, at, mid, end, exact);
  }

  lemma ShortcutFlows(m: Marks, jump: Instr, mid: nat, end: nat, d: nat, rs: seq<Region>, exact: bool)
    requires (jump == JmpIfFalse(end) || jump == JmpIfTrue(end)) && Goes(m, end, d + 1, rs)
    requires m(mid) == Mark(d + 1, rs, false) && m(mid + 1) == Mark(d + 2, rs, false)
      && m(mid + 6) == Mark(d + 1, rs, false)
    requires Goes(m, mid + 7, d, rs) && Fits(m, rs, d)
    ensures Flows(m, [Dup, jump, Pop], mid, mid + 7, exact)
  {
    hide Flows, Flow;
    PlainFlow(m, Dup, mid, rs, exact);
    TestFlow(m, jump, mid + 1, end, rs, exact);
    PlainFlow(m, Pop, mid + 6, rs, exact);
    Joined(m, [Dup], [jump], mid, mid + 1, mid + 6, exact);
    Joined(m, [Dup] + [jump], [Pop], mid, mid + 6, mid + 7, exact);
    assert [Dup] + [jump] + [Pop] == [Dup, jump, Pop];
  }

  lemma {:induction false} CallFlows(m: Marks, e: Expr, at: nat, d: nat, rs: seq<Region>, exact: bool)
    requires e.Call? && WfExpr(e) && OnExpr(m, e, at, d, rs) && Goes(m, at + SizeExpr(e), d + 1, rs)
    requires Fits(m, rs, d)
    ensures Goes(m, at, d, rs) && Flows(m, ExprCode(e, at), at, at + SizeExpr(e), exact)
    decreases e, 0
  {
    hide Flows, Flow, ExprsCode, ExprsDepth;
    var mid, last := at + SizeExpr(e.callee), at + SizeExpr(e.callee) + SizeExprs(e.args);
    assert m(last) == Mark(d + 1 + |e.args|, rs, false);
    PlainFlow(m, CallN(|e.args|), last, rs, exact);
    assert OnExprs(m, e.args, mid, d + 1, rs);
    ExprsFlow(m, e.args, mid, d + 1, rs, exact);
    assert OnExpr(m, e.callee, at, d, rs);
    ExprFlows(m, e.callee, at, d, rs, exact);
    Joined(m, ExprsCode(e.args, mid), [CallN(|e.args|)], mid, last, last + 2, exact);
    Joined(m, ExprCode(e.callee, at), ExprsCode(e.args, mid) + [CallN(|e.args|)], at, mid, last + 2, exact);
  }

  // ---- statements: from depth d to d ----

  function BindDepth(t: Target, addAssign: bool, at: nat, h: nat, pc: nat): nat {
    if addAssign && t.To? && at + 9 <= pc < at + 11 then h + 1 else h
  }

  function BindsDepth(ts: seq<Target>, addAssign: bool, at: nat, d: nat, pc: nat): nat {
    if ts == [] then d
    else if pc < at + SizeBind(ts[0], addAssign) then BindDepth(ts[0], addAssign, at, d + |ts|, pc)
    else BindsDepth(ts[1..], addAssign, at + SizeBind(ts[0], addAssign), d, pc)
  }

  function AssignDepth(ts: seq<Target>, addAssign: bool, value: Expr, at: nat, d: nat, pc: nat): nat {
    if addAssign && |ts| == 1 && ts[0].To? then
      var last := at + 9 + SizeExpr(value);
      if pc < at + 9 then d else if pc < last then ExprDepth(value, at + 9, d + 1, pc) else if pc == last then d + 2
        else d + 1
    else
      var last := at + SizeExpr(value);
      if pc < last then ExprDepth(value, at, d, pc)
      else if |ts| == 1 || pc < last + 2 then d + 1
      else BindsDepth(ts, addAssign, last + 2, d, pc)
  }

  function CondDepth(cond: Option<Expr>, at: nat, d: nat, pc: nat): nat {
    match cond
    case None => d
    case Some(e) => if pc < at + SizeExpr(e) then ExprDepth(e, at, d, pc) else d + 1
  }

  function StmtMark(s: Stmt, at: nat, d: nat, rs: seq<Region>, pc: nat): Mark
    decreases s, 1
  {
    match s
    case Assign(ts, addAssign, value) => Mark(AssignDepth(ts, addAssign, value, at, d, pc), rs, false)
    case ExprStmt(e) => Mark(if pc < at + SizeExpr(e) then ExprDepth(e, at, d, pc) else d + 1, rs, false)
    case Return(e) => Mark(if pc < at + SizeExpr(e) then ExprDepth(e, at, d, pc) else d + 1, rs, false)
    case Break => Mark(d, rs, false)
    case Block(body) => BlockMark(body, at, d, rs, pc)
    case If(chain) => ChainMark(chain, at, d, rs, pc)
    case Loop(cond, body) =>
      var mid := at + SizeCond(cond);
      if pc < mid then Mark(CondDepth(cond, at, d, pc), rs, false)
      else if pc < mid + SizeBlock(body) then BlockMark(body, mid, d, rs, pc)
      else Mark(d, rs, false)
    case Match(scrutinee, cases) =>
      var mid := at + SizeExpr(scrutinee);
      if pc < mid then Mark(ExprDepth(scrutinee, at, d, pc), rs, false)
      else if pc < mid + SizeCases(cases) then CasesMark(cases, mid, d + 1, rs, pc)
      else Mark(d + 1, rs, false)
    case Monitor(body, _, handler) =>
      var exit := BodyEnd(s, at);
      if pc < at + 5 then Mark(d, rs, false)
      else if pc < exit then BlockMark(body, at + 5, d, rs + [RegionOf(s, at)], pc)
      else if pc == exit then Mark(d, rs + [RegionOf(s, at)], false)
      else if pc < exit + 6 then Mark(d, rs, true)
      else if pc < exit + 15 then Mark(d + 1, rs, false)
      else BlockMark(handler, exit + 15, d, rs, pc)
  }

  function RegionOf(s: Stmt, at: nat): Region
    requires s.Monitor?
  {
    Region(at + 5, BodyEnd(s, at) + 6)
  }

  function BlockMark(ss: seq<Stmt>, at: nat, d: nat, rs: seq<Region>, pc: nat): Mark
    decreases ss, 0
  {
    if ss == [] then Mark(d, rs, false)
    else if pc < at + SizeStmt(ss[0]) then StmtMark(ss[0], at, d, rs, pc)
    else BlockMark(ss[1..], at + SizeStmt(ss[0]), d, rs, pc)
  }

  function ChainMark(ch: Chain, at: nat, d: nat, rs: seq<Region>, pc: nat): Mark
    decreases ch, 0
  {
    match ch
    case Else(els) => BlockMark(els, at, d, rs, pc)
    case Elif(cond, hint, body, rest) =>
      if pc < at + SizeExpr(cond) then Mark(ExprDepth(cond, at, d, pc), rs, false)
      else if pc < ArmStart(ch, at) then Mark(d + 1, rs, false)
      else if pc < ArmStart(ch, at) + SizeBlock(body) then BlockMark(body, ArmStart(ch, at), d, rs, pc)
      else if pc < NextArm(ch, at) then Mark(d, rs, false)
      else ChainMark(rest, NextArm(ch, at), d, rs, pc)
  }

  function CasesMark(cases: seq<Case>, at: nat, h: nat, rs: seq<Region>, pc: nat): Mark
    decreases cases, 0
  {
    if cases == [] then Mark(h, rs, false)
    else
      var next := at + 24 + SizeBlock(cases[0].body) + 5;
      if pc < at + 24 then Mark(h + if pc == at then 0 else if pc == at + 18 then 2 else 1, rs, false)
      else if pc < next - 5 then BlockMark(cases[0].body, at + 24, h, rs, pc)
      else if pc < next then Mark(h, rs, false)
      else CasesMark(cases[1..], next, h, rs, pc)
  }

  /** Everything in a construct is inside the blocks around it. */
  lemma {:induction false} StmtInside(s: Stmt, at: nat, d: nat, rs: seq<Region>, pc: nat)
    ensures rs <= StmtMark(s, at, d, rs, pc).inside
    decreases s, 1
  {
    match s
    case Block(body) => BlockInside(body, at, d, rs, pc);
    case If(chain) => ChainInside(chain, at, d, rs, pc);
    case Loop(cond, body) => BlockInside(body, at + SizeCond(cond), d, rs, pc);
    case Match(scrutinee, cases) => CasesInside(cases, at + SizeExpr(scrutinee), d + 1, rs, pc);
    case Monitor(body, _, handler) =>
      BlockInside(body, at + 5, d, rs + [RegionOf(s, at)], pc);
      BlockInside(handler, BodyEnd(s, at) + 15, d, rs, pc);
    case _ =>
  }

  lemma {:induction false} BlockInside(ss: seq<Stmt>, at: nat, d: nat, rs: seq<Region>, pc: nat)
    ensures rs <= BlockMark(ss, at, d, rs, pc).inside
    decreases ss, 0
  {
    if ss != [] {
      StmtInside(ss[0], at, d, rs, pc);
      BlockInside(ss[1..], at + SizeStmt(ss[0]), d, rs, pc);
    }
  }

  lemma {:induction false} ChainInside(ch: Chain, at: nat, d: nat, rs: seq<Region>, pc: nat)
    ensures rs <= ChainMark(ch, at, d, rs, pc).inside
    decreases ch, 0
  {
    match ch
    case Else(els) => BlockInside(els, at, d, rs, pc);
    case Elif(_, _, body, rest) =>
      BlockInside(body, ArmStart(ch, at), d, rs, pc);
      ChainInside(rest, NextArm(ch, at), d, rs, pc);
  }

  lemma {:induction false} CasesInside(cases: seq<Case>, at: nat, h: nat, rs: seq<Region>, pc: nat)
    ensures rs <= CasesMark(cases, at, h, rs, pc).inside
    decreases cases, 0
  {
    if cases != [] {
      BlockInside(cases[0].body, at + 24, h, rs, pc);
      CasesInside(cases[1..], at + 24 + SizeBlock(cases[0].body) + 5, h, rs, pc);
    }
  }

  ghost predicate OnStmt(m: Marks, s: Stmt, at: nat, d: nat, rs: seq<Region>) {
    forall pc: nat {:trigger m(pc)} | at <= pc < at + SizeStmt(s) :: m(pc) == StmtMark(s, at, d, rs, pc)
  }

  ghost predicate OnBlock(m: Marks, ss: seq<Stmt>, at: nat, d: nat, rs: seq<Region>) {
    forall pc: nat {:trigger m(pc)} | at <= pc < at + SizeBlock(ss) :: m(pc) == BlockMark(ss, at, d, rs, pc)
  }

  ghost predicate OnChain(m: Marks, ch: Chain, at: nat, d: nat, rs: seq<Region>) {
    forall pc: nat {:trigger m(pc)} | at <= pc < at + SizeChain(ch) :: m(pc) == ChainMark(ch, at, d, rs, pc)
  }

  ghost predicate OnCases(m: Marks, cases: seq<Case>, at: nat, h: nat, rs: seq<Region>) {
    forall pc: nat {:trigger m(pc)} | at <= pc < at + SizeCases(cases) :: m(pc) == CasesMark(cases, at, h, rs, pc)
  }

  ghost predicate OnBinds(m: Marks, ts: seq<Target>, addAssign: bool, at: nat, d: nat, rs: seq<Region>) {
    forall pc: nat {:trigger m(pc)} | at <= pc < at + SizeBinds(ts, addAssign) ::
      m(pc) == Mark(BindsDepth(ts, addAssign, at, d, pc), rs, false)
  }

  lemma {:induction false} BindFlows(m: Marks, t: Target, addAssign: bool, at: nat, h: nat, rs: seq<Region>,
      exact: bool)
    requires forall pc: nat {:trigger m(pc)} | at <= pc < at + SizeBind(t, addAssign) ::
      m(pc) == Mark(BindDepth(t, addAssign, at, h, pc), rs, false)
    requires h >= 1 && Goes(m, at + SizeBind(t, addAssign), h - 1, rs) && Fits(m, rs, h - 1)
    ensures Goes(m, at, h, rs) && Flows(m, BindCode(t, addAssign), at, at + SizeBind(t, addAssign), exact)
  {
    hide Flows, Flow;
    assert m(at) == Mark(h, rs, false);
    if addAssign && t.To? {
      assert m(at + 9) == Mark(h + 1, rs, false) && m(at + 10) == Mark(h + 1, rs, false)
        && m(at + 11) == Mark(h, rs, false);
      AddFlows(m, t.name, at, h, rs, exact);
    } else {
      PlainFlow(m, TargetCode(t), at, rs, exact);
    }
  }

  lemma AddFlows(m: Marks, name: string, at: nat, h: nat, rs: seq<Region>, exact: bool)
    requires h >= 1 && m(at) == Mark(h, rs, false) && m(at + 9) == Mark(h + 1, rs, false)
      && m(at + 10) == Mark(h + 1, rs, false)
    requires m(at + 11) == Mark(h, rs, false) && Goes(m, at + 20, h - 1, rs) && Fits(m, rs, h - 1)
    ensures Flows(m, [Load(name), Swap, Do(Binary(Add)), Store(name)], at, at + 20, exact)
  {
    hide Flows, Flow;
    PlainFlow(m, Load(name), at, rs, exact);
    PlainFlow(m, Swap, at + 9, rs, exact);
    PlainFlow(m, Do(Binary(Add)), at + 10, rs, exact);
    PlainFlow(m, Store(name), at + 11, rs, exact);
    Joined(m, [Load(name)], [Swap], at, at + 9, at + 10, exact);
    Joined(m, [Load(name)] + [Swap], [Do(Binary(Add))], at, at + 10, at + 11, exact);
    Joined(m, [Load(name)] + [Swap] + [Do(Binary(Add))], [Store(name)], at, at + 11, at + 20, exact);
    assert [Load(name)] + [Swap] + [Do(Binary(Add))] + [Store(name)]
      == [Load(name), Swap, Do(Binary(Add)), Store(name)];
  }

  lemma {:induction false} BindsFlow(m: Marks, ts: seq<Target>, addAssign: bool, at: nat, d: nat, rs: seq<Region>,
      exact: bool)
    requires OnBinds(m, ts, addAssign, at, d, rs) && Goes(m, at + SizeBinds(ts, addAssign), d, rs)
    requires Fits(m, rs, d)
    ensures Goes(m, at, d + |ts|, rs) && Flows(m, BindsCode(ts, addAssign), at, at + SizeBinds(ts, addAssign), exact)
    decreases |ts|
  {
    hide Flow, BindCode, BindDepth, SizeBind;
    if ts != [] {
      var mid := at + SizeBind(ts[0], addAssign);
      assert OnBinds(m, ts[1..], addAssign, mid, d, rs);
      BindsFlow(m, ts[1..], addAssign, mid, d, rs, exact);
      BindFlows(m, ts[0], addAssign, at, d + |ts|, rs, exact);
      Joined(m, BindCode(ts[0], addAssign), BindsCode(ts[1..], addAssign), at, mid, at + SizeBinds(ts, addAssign),
        exact);
    }
  }

  lemma {:induction false} AssignFlows(m: Marks, s: Stmt, at: nat, d: nat, rs: seq<Region>, exact: bool)
    requires s.Assign? && WfStmt(s) && OnStmt(m, s, at, d, rs) && Goes(m, at + SizeStmt(s), d, rs)
    requires Fits(m, rs, d)
    ensures Goes(m, at, d, rs) && Flows(m, AssignCode(s.targets, s.addAssign, s.value, at), at, at + SizeStmt(s), exact)
  {
    hide Flows, Flow, ExprDepth, ExprCode, SizeExpr, BindsDepth;
    if s.addAssign && |s.targets| == 1 && s.targets[0].To? {
      AddAssignFlows(m, s, at, d, rs, exact);
    } else if |s.targets| == 1 {
      OneFlows(m, s, at, d, rs, exact);
    } else {
      ManyFlows(m, s, at, d, rs, exact);
    }
  }

  lemma AddAssignFlows(m: Marks, s: Stmt, at: nat, d: nat, rs: seq<Region>, exact: bool)
    requires s.Assign? && WfStmt(s) && OnStmt(m, s, at, d, rs) && Goes(m, at + SizeStmt(s), d, rs)
    requires s.addAssign && |s.targets| == 1 && s.targets[0].To?
    requires Fits(m, rs, d)
    ensures Goes(m, at, d, rs) && Flows(m, AssignCode(s.targets, s.addAssign, s.value, at), at, at + SizeStmt(s), exact)
  {
    hide Flows, Flow, ExprDepth, ExprCode, SizeExpr, BindsDepth;
    var name, e := s.targets[0].name, s.value;
    var last := at + 9 + SizeExpr(e);
    assert m(at) == Mark(d, rs, false) && m(last) == Mark(d + 2, rs, false) && m(last + 1) == Mark(d + 1, rs, false);
    assert OnExpr(m, e, at + 9, d + 1, rs);
    ExprFlows(m, e, at + 9, d + 1, rs, exact);
    PlainFlow(m, Load(name), at, rs, exact);
    PlainFlow(m, Do(Binary(Add)), last, rs, exact);
    PlainFlow(m, Store(name), last + 1, rs, exact);
    Joined(m, [Do(Binary(Add))], [Store(name)], last, last + 1, last + 10, exact);
    assert [Do(Binary(Add))] + [Store(name)] == [Do(Binary(Add)), Store(name)];
    Joined(m, ExprCode(e, at + 9), [Do(Binary(Add)), Store(name)], at + 9, last, last + 10, exact);
    Joined(m, [Load(name)], ExprCode(e, at + 9) + [Do(Binary(Add)), Store(name)], at, at + 9, last + 10, exact);
  }

  lemma OneFlows(m: Marks, s: Stmt, at: nat, d: nat, rs: seq<Region>, exact: bool)
    requires s.Assign? && WfStmt(s) && OnStmt(m, s, at, d, rs) && Goes(m, at + SizeStmt(s), d, rs)
    requires |s.targets| == 1 && !(s.addAssign && s.targets[0].To?)
    requires Fits(m, rs, d)
    ensures Goes(m, at, d, rs) && Flows(m, AssignCode(s.targets, s.addAssign, s.value, at), at, at + SizeStmt(s), exact)
  {
    hide Flows, Flow, ExprDepth, ExprCode, SizeExpr, BindsDepth;
    var last := at + SizeExpr(s.value);
    assert m(last) == Mark(d + 1, rs, false);
    assert OnExpr(m, s.value, at, d, rs);
    ExprFlows(m, s.value, at, d, rs, exact);
    PlainFlow(m, TargetCode(s.targets[0]), last, rs, exact);
    Joined(m, ExprCode(s.value, at), [TargetCode(s.targets[0])], at, last, at + SizeStmt(s), exact);
  }

  lemma ManyFlows(m: Marks, s: Stmt, at: nat, d: nat, rs: seq<Region>, exact: bool)
    requires s.Assign? && WfStmt(s) && OnStmt(m, s, at, d, rs) && Goes(m, at + SizeStmt(s), d, rs) && |s.targets| != 1
    requires Fits(m, rs, d)
    ensures Goes(m, at, d, rs) && Flows(m, AssignCode(s.targets, s.addAssign, s.value, at), at, at + SizeStmt(s), exact)
  {
    hide Flows, Flow, ExprDepth, ExprCode, SizeExpr, BindsDepth, BindsCode;
    var ts, add, last := s.targets, s.addAssign, at + SizeExpr(s.value);
    assert m(last) == Mark(d + 1, rs, false);
    assert OnExpr(m, s.value, at, d, rs);
    ExprFlows(m, s.value, at, d, rs, exact);
    assert OnBinds(m, ts, add, last + 2, d, rs);
    BindsFlow(m, ts, add, last + 2, d, rs, exact);
    PlainFlow(m, Instr.Unpack(|ts|), last, rs, exact);
    Joined(m, [Instr.Unpack(|ts|)], BindsCode(ts, add), last, last + 2, at + SizeStmt(s), exact);
    Joined(m, ExprCode(s.value, at), [Instr.Unpack(|ts|)] + BindsCode(ts, add), at, last, at + SizeStmt(s), exact);
  }

  /** Where a `break` of the enclosing loop goes, the stack is at most as deep as here, and
      just as deep if one really goes there and depths are exact. */
  predicate BreakTo(m: Marks, brk: nat, d: nat, rs: seq<Region>, breaks: bool, exact: bool) {
    m(brk).depth <= d && (exact && breaks ==> m(brk).depth == d) && m(brk).inside <= rs
  }

  /** The blocks around a construct at `at` begin before it. */
  predicate Before(rs: seq<Region>, at: nat) {
    forall r | r in rs :: r.start <= at
  }

  lemma {:induction false} StmtFlows(m: Marks, s: Stmt, at: nat, brk: nat, d: nat, rs: seq<Region>, exact: bool)
    requires WfStmt(s) && OnStmt(m, s, at, d, rs) && Goes(m, at + SizeStmt(s), d, rs)
    requires BreakTo(m, brk, d, rs, BreaksOut(s), exact) && (exact ==> Tidy(s))
    requires Fits(m, rs, d) && Before(rs, at)
    ensures Goes(m, at, d, rs) && Flows(m, StmtCode(s, at, brk), at, at + SizeStmt(s), exact)
    decreases s, 1
  {
    hide Nested, Flows, Flow, ExprDepth, ExprCode, SizeExpr, AssignDepth, BlockMark, ChainMark, CasesMark, BlockCode,
      ChainCode, CasesCode;
    match s {
      case Assign(_, _, _) =>
        AssignFlows(m, s, at, d, rs, exact);
      case ExprStmt(e) =>
        var last := at + SizeExpr(e);
        assert m(last) == Mark(d + 1, rs, false) && OnExpr(m, e, at, d, rs);
        ExprFlows(m, e, at, d, rs, exact);
        PlainFlow(m, Pop, last, rs, exact);
        Joined(m, ExprCode(e, at), [Pop], at, last, last + 1, exact);
      case Return(e) =>
        var last := at + SizeExpr(e);
        assert m(last) == Mark(d + 1, rs, false) && OnExpr(m, e, at, d, rs);
        ExprFlows(m, e, at, d, rs, exact);
        ReturnFlow(m, last, exact);
        Joined(m, ExprCode(e, at), [Ret], at, last, last + 1, exact);
      case Break =>
        assert m(at) == Mark(d, rs, false);
        JumpFlow(m, at, brk, exact);
      case Block(body) =>
        assert OnBlock(m, body, at, d, rs);
        BlockFlows(m, body, at, brk, d, rs, exact);
      case If(chain) =>
        assert OnChain(m, chain, at, d, rs);
        ChainFlows(m, chain, at, at + SizeChain(chain), brk, d, rs, exact);
      case Loop(_, _) => LoopFlows(m, s, at, brk, d, rs, exact);
      case Match(_, _) => MatchFlows(m, s, at, brk, d, rs, exact);
      case Monitor(_, _, _) => MonitorFlows(m, s, at, brk, d, rs, exact);
    }
  }

  lemma ReturnFlow(m: Marks, at: nat, exact: bool)
    requires m(at).depth >= 1 && !m(at).quiet && Fits(m, m(at).inside, m(at).depth - 1)
    ensures Flows(m, [Ret], at, at + 1, exact)
  {
    Single(m, Ret, at, exact);
  }

  lemma {:induction false} BlockFlows(m: Marks, ss: seq<Stmt>, at: nat, brk: nat, d: nat, rs: seq<Region>, exact: bool)
    requires WfBlock(ss) && OnBlock(m, ss, at, d, rs) && Goes(m, at + SizeBlock(ss), d, rs)
    requires BreakTo(m, brk, d, rs, BlockBreaksOut(ss), exact) && (exact ==> BlockTidy(ss))
    requires Fits(m, rs, d) && Before(rs, at)
    ensures Goes(m, at, d, rs) && Flows(m, BlockCode(ss, at, brk), at, at + SizeBlock(ss), exact)
    decreases ss, 0
  {
    hide Flow, StmtMark, StmtCode, SizeStmt;
    if ss != [] {
      var mid := at + SizeStmt(ss[0]);
      assert OnBlock(m, ss[1..], mid, d, rs);
      BlockFlows(m, ss[1..], mid, brk, d, rs, exact);
      assert OnStmt(m, ss[0], at, d, rs);
      StmtFlows(m, ss[0], at, brk, d, rs, exact);
      Joined(m, StmtCode(ss[0], at, brk), BlockCode(ss[1..], mid, brk), at, mid, at + SizeBlock(ss), exact);
    }
  }

  lemma {:induction false} LoopFlows(m: Marks, s: Stmt, at: nat, brk: nat, d: nat, rs: seq<Region>, exact: bool)
    requires s.Loop? && WfStmt(s) && OnStmt(m, s, at, d, rs) && Goes(m, at + SizeStmt(s), d, rs) && (exact ==> Tidy(s))
    requires Fits(m, rs, d) && Before(rs, at)
    ensures Goes(m, at, d, rs) && Flows(m, StmtCode(s, at, brk), at, at + SizeStmt(s), exact)
    decreases s, 0
  {
    hide Flows, Flow, ExprDepth, ExprCode, SizeExpr, BlockMark, BlockCode, CondCode, SizeBlock;
    var mid, end := at + SizeCond(s.cond), at + SizeStmt(s);
    var back := mid + SizeBlock(s.body);
    assert m(back) == Mark(d, rs, false) && OnBlock(m, s.body, mid, d, rs);
    BlockFlows(m, s.body, mid, end, d, rs, exact);
    CondFlows(m, s.cond, at, end, d, rs, exact);
    JumpFlow(m, back, at, exact);
    Joined(m, BlockCode(s.body, mid, end), [Jmp(at)], mid, back, end, exact);
    Joined(m, CondCode(s.cond, at, end), BlockCode(s.body, mid, end) + [Jmp(at)], at, mid, end, exact);
  }

  lemma CondFlows(m: Marks, cond: Option<Expr>, at: nat, end: nat, d: nat, rs: seq<Region>, exact: bool)
    requires (cond.Some? ==> WfExpr(cond.value)) && Goes(m, at + SizeCond(cond), d, rs) && Goes(m, end, d, rs)
    requires forall pc: nat {:trigger m(pc)} | at <= pc < at + SizeCond(cond) ::
      m(pc) == Mark(CondDepth(cond, at, d, pc), rs, false)
    requires Fits(m, rs, d)
    ensures Goes(m, at, d, rs) && Flows(m, CondCode(cond, at, end), at, at + SizeCond(cond), exact)
  {
    hide Flow, ExprDepth, ExprCode, SizeExpr;
    if cond.Some? {
      var test := at + SizeExpr(cond.value);
      assert m(test) == Mark(d + 1, rs, false) && OnExpr(m, cond.value, at, d, rs);
      ExprFlows(m, cond.value, at, d, rs, exact);
      TestFlow(m, JmpIfFalse(end), test, end, rs, exact);
      Joined(m, ExprCode(cond.value, at), [JmpIfFalse(end)], at, test, test + 5, exact);
    }
  }

  lemma {:induction false} MatchFlows(m: Marks, s: Stmt, at: nat, brk: nat, d: nat, rs: seq<Region>, exact: bool)
    requires s.Match? && WfStmt(s) && OnStmt(m, s, at, d, rs) && Goes(m, at + SizeStmt(s), d, rs)
    requires BreakTo(m, brk, d, rs, BreaksOut(s), exact) && (exact ==> Tidy(s))
    requires Fits(m, rs, d) && Before(rs, at)
    ensures Goes(m, at, d, rs) && Flows(m, StmtCode(s, at, brk), at, at + SizeStmt(s), exact)
    decreases s, 0
  {
    hide Flows, Flow, ExprDepth, ExprCode, SizeExpr, CasesMark, CasesCode, SizeCases;
    var mid, last := at + SizeExpr(s.scrutinee), CasesEnd(s, at);
    assert m(last) == Mark(d + 1, rs, false) && OnCases(m, s.cases, mid, d + 1, rs);
    CasesFlows(m, s.cases, mid, last, brk, d + 1, rs, exact);
    assert OnExpr(m, s.scrutinee, at, d, rs);
    ExprFlows(m, s.scrutinee, at, d, rs, exact);
    PlainFlow(m, Pop, last, rs, exact);
    Joined(m, CasesCode(s.cases, mid, last, brk), [Pop], mid, last, last + 1, exact);
    Joined(m, ExprCode(s.scrutinee, at), CasesCode(s.cases, mid, last, brk) + [Pop], at, mid, last + 1, exact);
  }

  lemma {:induction false} CasesFlows(m: Marks, cases: seq<Case>, at: nat, end: nat, brk: nat, h: nat, rs: seq<Region>,
      exact: bool)
    requires WfCases(cases) && OnCases(m, cases, at, h, rs) && Goes(m, at + SizeCases(cases), h, rs)
      && Goes(m, end, h, rs) && h >= 1
    requires m(brk).depth <= h && m(brk).inside <= rs && (exact ==> CasesTidy(cases) && !CasesBreakOut(cases))
    requires Fits(m, rs, h - 1) && Before(rs, at)
    ensures Goes(m, at, h, rs) && Flows(m, CasesCode(cases, at, end, brk), at, at + SizeCases(cases), exact)
    decreases cases, 0
  {
    hide Flow, Nested, BlockMark, BlockCode, SizeBlock, CaseTestCode, OnCases, OnBlock;
    if cases != [] {
      var arm := cases[0];
      var next := at + 24 + SizeBlock(arm.body) + 5;
      ArmMarks(m, cases, at, h, rs);
      CasesFlows(m, cases[1..], next, end, brk, h, rs, exact);
      JumpFlow(m, next - 5, end, exact);
      BlockFlows(m, arm.body, at + 24, brk, h, rs, exact);
      CaseTestFlows(m, arm, at, next, h, rs, exact);
      FourJoined(m, CaseTestCode(arm, next), BlockCode(arm.body, at + 24, brk), [Jmp(end)],
        CasesCode(cases[1..], next, end, brk),
                 at, at + 24, next - 5, next, at + SizeCases(cases), exact);
    }
  }

  lemma ArmMarks(m: Marks, cases: seq<Case>, at: nat, h: nat, rs: seq<Region>)
    requires cases != [] && OnCases(m, cases, at, h, rs)
    ensures
      var next := at + 24 + SizeBlock(cases[0].body) + 5;
      && OnCases(m, cases[1..], next, h, rs) && OnBlock(m, cases[0].body, at + 24, h, rs)
        && m(next - 5) == Mark(h, rs, false)
      && m(at) == Mark(h, rs, false) && m(at + 1) == Mark(h + 1, rs, false) && m(at + 18) == Mark(h + 2, rs, false)
      && m(at + 19) == Mark(h + 1, rs, false)
  {
    hide BlockMark, SizeBlock;
  }

  lemma CaseTestFlows(m: Marks, arm: Case, at: nat, next: nat, h: nat, rs: seq<Region>, exact: bool)
    requires m(at) == Mark(h, rs, false) && h >= 1 && m(at + 1) == Mark(h + 1, rs, false)
      && m(at + 18) == Mark(h + 2, rs, false)
    requires m(at + 19) == Mark(h + 1, rs, false) && Goes(m, at + 24, h, rs) && Goes(m, next, h, rs)
      && Fits(m, rs, h - 1)
    ensures Flows(m, CaseTestCode(arm, next), at, at + 24, exact)
  {
    hide Flows, Flow;
    var push := Push(EnumLit(arm.enumName, arm.member));
    PlainFlow(m, Dup, at, rs, exact);
    PlainFlow(m, push, at + 1, rs, exact);
    PlainFlow(m, Do(Binary(Eq)), at + 18, rs, exact);
    TestFlow(m, JmpIfFalse(next), at + 19, next, rs, exact);
    Joined(m, [Dup], [push], at, at + 1, at + 18, exact);
    Joined(m, [Dup] + [push], [Do(Binary(Eq))], at, at + 18, at + 19, exact);
    Joined(m, [Dup] + [push] + [Do(Binary(Eq))], [JmpIfFalse(next)], at, at + 19, at + 24, exact);
    assert [Dup] + [push] + [Do(Binary(Eq))] + [JmpIfFalse(next)] == CaseTestCode(arm, next);
  }

  lemma {:induction false} ChainFlows(m: Marks, ch: Chain, at: nat, end: nat, brk: nat, d: nat, rs: seq<Region>,
      exact: bool)
    requires WfChain(ch) && OnChain(m, ch, at, d, rs) && Goes(m, at + SizeChain(ch), d, rs) && Goes(m, end, d, rs)
    requires BreakTo(m, brk, d, rs, ChainBreaksOut(ch), exact) && (exact ==> ChainTidy(ch))
    requires Fits(m, rs, d) && Before(rs, at)
    ensures Goes(m, at, d, rs) && Flows(m, ChainCode(ch, at, end, brk), at, at + SizeChain(ch), exact)
    decreases ch, 1
  {
    hide Flows, Flow, ExprDepth, ExprCode, SizeExpr, BlockMark, BlockCode, SizeBlock, TestCode;
    match ch {
      case Else(els) =>
        assert OnBlock(m, els, at, d, rs);
        BlockFlows(m, els, at, brk, d, rs, exact);
      case Elif(_, _, _, _) => ElifFlows(m, ch, at, end, brk, d, rs, exact);
    }
  }

  lemma {:induction false} ElifFlows(m: Marks, ch: Chain, at: nat, end: nat, brk: nat, d: nat, rs: seq<Region>,
      exact: bool)
    requires ch.Elif? && WfChain(ch) && OnChain(m, ch, at, d, rs) && Goes(m, at + SizeChain(ch), d, rs)
      && Goes(m, end, d, rs)
    requires BreakTo(m, brk, d, rs, ChainBreaksOut(ch), exact) && (exact ==> ChainTidy(ch))
    requires Fits(m, rs, d) && Before(rs, at)
    ensures Goes(m, at, d, rs) && Flows(m, ChainCode(ch, at, end, brk), at, at + SizeChain(ch), exact)
    decreases ch, 0
  {
    hide Flows, Flow, ExprDepth, ExprCode, SizeExpr, BlockMark, BlockCode, SizeBlock, TestCode;
    var cond, hint, body, rest := ch.cond, ch.hint, ch.body, ch.rest;
    var test, start, next, stop := at + SizeExpr(cond), ArmStart(ch, at), NextArm(ch, at), at + SizeChain(ch);
    assert OnChain(m, rest, next, d, rs);
    ChainFlows(m, rest, next, end, brk, d, rs, exact);
    assert m(next - 5) == Mark(d, rs, false);
    JumpFlow(m, next - 5, end, exact);
    assert OnBlock(m, body, start, d, rs);
    BlockFlows(m, body, start, brk, d, rs, exact);
    assert m(test) == Mark(d + 1, rs, false) && m(start - 5) == Mark(d + 1, rs, false);
    HintFlows(m, hint, test, next, d, rs, exact);
    assert OnExpr(m, cond, at, d, rs);
    ExprFlows(m, cond, at, d, rs, exact);
    var tail := ChainCode(rest, next, end, brk);
    FourJoined(m, TestCode(hint, next), BlockCode(body, start, brk), [Jmp(end)], tail, test, start, next - 5, next,
      stop, exact);
    Joined(m, ExprCode(cond, at), TestCode(hint, next) + (BlockCode(body, start, brk) + ([Jmp(end)] + tail)), at, test,
      stop, exact);
  }

  lemma HintFlows(m: Marks, hint: Hint, at: nat, next: nat, d: nat, rs: seq<Region>, exact: bool)
    requires m(at) == Mark(d + 1, rs, false) && m(at + SizeHint(hint)) == Mark(d + 1, rs, false)
    requires Goes(m, at + SizeHint(hint) + 5, d, rs) && Goes(m, next, d, rs) && Fits(m, rs, d)
    ensures Flows(m, TestCode(hint, next), at, at + SizeHint(hint) + 5, exact)
  {
    hide Flows, Flow;
    var test := at + SizeHint(hint);
    TestFlow(m, JmpIfFalse(next), test, next, rs, exact);
    if hint.NoHint? {
      assert TestCode(hint, next) == [JmpIfFalse(next)];
    } else {
      PlainFlow(m, HintCode(hint)[0], at, rs, exact);
      Joined(m, HintCode(hint), [JmpIfFalse(next)], at, test, test + 5, exact);
    }
  }

  lemma {:induction false} MonitorFlows(m: Marks, s: Stmt, at: nat, brk: nat, d: nat, rs: seq<Region>, exact: bool)
    requires s.Monitor? && WfStmt(s) && OnStmt(m, s, at, d, rs) && Goes(m, at + SizeStmt(s), d, rs)
    requires BreakTo(m, brk, d, rs, BreaksOut(s), exact) && (exact ==> Tidy(s))
    requires Fits(m, rs, d) && Before(rs, at)
    ensures Goes(m, at, d, rs) && Flows(m, StmtCode(s, at, brk), at, at + SizeStmt(s), exact)
    decreases s, 0
  {
    hide Flows, Flow, BlockCode, SizeBlock, Nested, OnStmt, OnBlock;
    var exit, end, r := BodyEnd(s, at), at + SizeStmt(s), RegionOf(s, at);
    var inner := rs + [r];
    MonitorMarks(m, s, at, d, rs);
    BlockFlows(m, s.handler, exit + 15, brk, d, rs, exact);
    NestedMore(m, rs, r);
    BlockFlows(m, s.body, at + 5, brk, d, inner, exact);
    RegionFlows(m, s.trap, exit, end, d, rs, r, exact);
    EnterFlows(m, s, at, d, rs, exact);
    FourJoined(m, [MonitorEnter(exit + 6)], BlockCode(s.body, at + 5, brk), [MonitorExit, Jmp(end), Store(s.trap)],
               BlockCode(s.handler, exit + 15, brk), at, at + 5, exit, exit + 15, end, exact);
  }

  lemma MonitorMarks(m: Marks, s: Stmt, at: nat, d: nat, rs: seq<Region>)
    requires s.Monitor? && OnStmt(m, s, at, d, rs)
    ensures
      var exit, inner := BodyEnd(s, at), rs + [RegionOf(s, at)];
      && m(at) == Mark(d, rs, false) && m(exit) == Mark(d, inner, false) && m(exit + 1) == Mark(d, rs, true)
      && m(exit + 6) == Mark(d + 1, rs, false) && OnBlock(m, s.body, at + 5, d, inner)
        && OnBlock(m, s.handler, exit + 15, d, rs)
  {
    hide BlockMark, SizeBlock;
  }

  lemma NestedMore(m: Marks, rs: seq<Region>, r: Region)
    requires Nested(m, rs) && m(r.handler).inside <= rs
    ensures Nested(m, rs + [r])
  {
    var inner := rs + [r];
    forall j | 0 <= j < |inner|
      ensures m(inner[j].handler).inside <= inner[..j]
    {
      if j < |rs| {
        assert inner[j] == rs[j] && inner[..j] == rs[..j];
      } else {
        assert inner[..j] == rs;
      }
    }
  }

  lemma EnterFlows(m: Marks, s: Stmt, at: nat, d: nat, rs: seq<Region>, exact: bool)
    requires s.Monitor? && OnStmt(m, s, at, d, rs) && Fits(m, rs, d) && Before(rs, at)
    requires Goes(m, at + 5, d, rs + [RegionOf(s, at)])
    ensures Flows(m, [MonitorEnter(BodyEnd(s, at) + 6)], at, at + 5, exact)
  {
    hide BlockMark, SizeBlock, Nested, Flows;
    var exit, r := BodyEnd(s, at), RegionOf(s, at);
    assert m(at) == Mark(d, rs, false) && m(exit + 6) == Mark(d + 1, rs, false);
    forall q: nat | at + 5 <= q < exit + 6
      ensures r in m(q).inside || m(q).quiet
    {
      if q < exit {
        BlockInside(s.body, at + 5, d, rs + [r], q);
        assert (rs + [r])[|rs|] == r;
      } else if q == exit {
        assert (rs + [r])[|rs|] == r;
      }
    }
    Single(m, MonitorEnter(exit + 6), at, exact);
  }

  lemma RegionFlows(m: Marks, trap: string, exit: nat, end: nat, d: nat, rs: seq<Region>, r: Region, exact: bool)
    requires r.handler == exit + 6 && m(exit) == Mark(d, rs + [r], false) && m(exit + 1) == Mark(d, rs, true)
    requires m(exit + 6) == Mark(d + 1, rs, false) && Goes(m, exit + 15, d, rs) && Goes(m, end, d, rs) && Fits(m, rs, d)
      && Nested(m, rs + [r])
    ensures Flows(m, [MonitorExit, Jmp(end), Store(trap)], exit, exit + 15, exact)
  {
    hide Flows, Nested;
    assert (rs + [r])[..|rs|] == rs;
    Single(m, MonitorExit, exit, exact);
    hide Flow;
    JumpFlow(m, exit + 1, end, exact);
    PlainFlow(m, Store(trap), exit + 6, rs, exact);
    Joined(m, [MonitorExit], [Jmp(end)], exit, exit + 1, exit + 6, exact);
    Joined(m, [MonitorExit] + [Jmp(end)], [Store(trap)], exit, exit + 6, exit + 15, exact);
    assert [MonitorExit] + [Jmp(end)] + [Store(trap)] == [MonitorExit, Jmp(end), Store(trap)];
  }

  // ---- whole blobs ----

  function PrologueDepth(n: nat, at: nat, pc: nat): nat {
    if n == 0 then 0 else if pc < at + 9 then n else PrologueDepth(n - 1, at + 9, pc)
  }

  function FunctionMark(f: Function, pc: nat): Mark {
    var start := 9 * |f.params|;
    var end := start + SizeBlock(f.body);
    if pc < start then Mark(PrologueDepth(|f.params|, 0, pc), [], false)
    else if pc < end then BlockMark(f.body, start, 0, [], pc)
    else Mark(if pc == end then 0 else 1, [], false)
  }

  function FunctionMarks(f: Function): Marks {
    (pc: nat) => FunctionMark(f, pc)
  }

  function TopMarks(body: seq<Stmt>): Marks {
    (pc: nat) => if pc < SizeBlock(body) then BlockMark(body, 0, 0, [], pc) else Mark(0, [], false)
  }

  lemma {:induction false} PrologueFlows(m: Marks, params: seq<string>, at: nat, exact: bool)
    requires forall pc: nat {:trigger m(pc)} | at <= pc < at + 9 * |params| ::
      m(pc) == Mark(PrologueDepth(|params|, at, pc), [], false)
    requires Goes(m, at + 9 * |params|, 0, [])
    ensures Goes(m, at, |params|, []) && Flows(m, PrologueCode(params), at, at + 9 * |params|, exact)
    decreases |params|
  {
    hide Flow;
    if params != [] {
      var i, rest := Store(params[|params| - 1]), params[..|params| - 1];
      assert forall pc: nat {:trigger m(pc)} | at + 9 <= pc < at + 9 + 9 * |rest| ::
        m(pc) == Mark(PrologueDepth(|rest|, at + 9, pc), [], false);
      PrologueFlows(m, rest, at + 9, exact);
      PlainFlow(m, i, at, [], exact);
      Joined(m, [i], PrologueCode(rest), at, at + 9, at + 9 * |params|, exact);
    }
  }

  /** A function's code starts with the arguments on the stack, finds its operands at every
      instruction, and leaves for offsets of the right depth. */
  lemma FunctionFlows(f: Function)
    requires WfBlock(f.body)
    ensures Goes(FunctionMarks(f), 0, |f.params|, [])
    ensures Flows(FunctionMarks(f), FunctionCode(f), 0, 9 * |f.params| + SizeBlock(f.body) + 2, BlockTidy(f.body))
  {
    hide Flow, Flows, BlockMark, BlockCode, PrologueDepth, PrologueCode;
    var m, exact := FunctionMarks(f), BlockTidy(f.body);
    var start := 9 * |f.params|;
    var end := start + SizeBlock(f.body);
    assert m(end) == Mark(0, [], false) && m(end + 1) == Mark(1, [], false);
    BlockFlows(m, f.body, start, end, 0, [], exact);
    PrologueFlows(m, f.params, 0, exact);
    PlainFlow(m, Push(NullLit), end, [], exact);
    ReturnFlow(m, end + 1, exact);
    Joined(m, [Push(NullLit)], [Ret], end, end + 1, end + 2, exact);
    assert [Push(NullLit)] + [Ret] == [Push(NullLit), Ret];
    Joined(m, BlockCode(f.body, start, end), [Push(NullLit), Ret], start, end, end + 2, exact);
    Joined(m, PrologueCode(f.params), BlockCode(f.body, start, end) + [Push(NullLit), Ret], 0, start, end + 2, exact);
  }

  lemma TopFlows(body: seq<Stmt>)
    requires WfBlock(body)
    ensures Goes(TopMarks(body), 0, 0, []) && Flows(TopMarks(body), TopCode(body), 0, SizeBlock(body) + 1,
      BlockTidy(body))
  {
    hide Flow, Flows, BlockMark, BlockCode;
    var m, exact, end := TopMarks(body), BlockTidy(body), SizeBlock(body);
    assert m(end) == Mark(0, [], false);
    BlockFlows(m, body, 0, end, 0, [], exact);
    HaltFlow(m, end, exact);
    Joined(m, BlockCode(body, 0, end), [Instr.Halt], 0, end, end + 1, exact);
  }

  lemma HaltFlow(m: Marks, at: nat, exact: bool)
    requires m(at) == Mark(0, [], false)
    ensures Flows(m, [Instr.Halt], at, at + 1, exact)
  {
    Single(m, Instr.Halt, at, exact);
  }

  // ---- the protected blocks around an offset contain it ----

  /** The protected blocks around an offset contain it. */
  predicate Within(m: Marks, pc: nat) {
    forall r | r in m(pc).inside :: r.start <= pc < r.handler
  }

  ghost predicate Contain(rs: seq<Region>, around: seq<Region>, pc: nat) {
    forall r | r in rs :: r in around || r.start <= pc < r.handler
  }

  lemma {:induction false} StmtContains(s: Stmt, at: nat, d: nat, rs: seq<Region>, pc: nat)
    requires at <= pc < at + SizeStmt(s)
    ensures Contain(StmtMark(s, at, d, rs, pc).inside, rs, pc)
    decreases s, 1
  {
    hide ExprDepth, AssignDepth, CondDepth;
    match s
    case Block(body) => BlockContains(body, at, d, rs, pc);
    case If(chain) => ChainContains(chain, at, d, rs, pc);
    case Loop(cond, body) =>
      var mid := at + SizeCond(cond);
      if mid <= pc < mid + SizeBlock(body) {
        BlockContains(body, mid, d, rs, pc);
      }
    case Match(scrutinee, cases) =>
      var mid := at + SizeExpr(scrutinee);
      if mid <= pc < mid + SizeCases(cases) {
        CasesContain(cases, mid, d + 1, rs, pc);
      }
    case Monitor(body, _, handler) =>
      if at + 5 <= pc < BodyEnd(s, at) {
        BlockContains(body, at + 5, d, rs + [RegionOf(s, at)], pc);
      } else if pc >= BodyEnd(s, at) + 15 {
        BlockContains(handler, BodyEnd(s, at) + 15, d, rs, pc);
      }
    case _ =>
  }

  lemma {:induction false} BlockContains(ss: seq<Stmt>, at: nat, d: nat, rs: seq<Region>, pc: nat)
    requires at <= pc < at + SizeBlock(ss)
    ensures Contain(BlockMark(ss, at, d, rs, pc).inside, rs, pc)
    decreases ss, 0
  {
    if pc < at + SizeStmt(ss[0]) {
      StmtContains(ss[0], at, d, rs, pc);
    } else {
      BlockContains(ss[1..], at + SizeStmt(ss[0]), d, rs, pc);
    }
  }

  lemma {:induction false} ChainContains(ch: Chain, at: nat, d: nat, rs: seq<Region>, pc: nat)
    requires at <= pc < at + SizeChain(ch)
    ensures Contain(ChainMark(ch, at, d, rs, pc).inside, rs, pc)
    decreases ch, 0
  {
    hide ExprDepth;
    match ch
    case Else(els) => BlockContains(els, at, d, rs, pc);
    case Elif(_, _, body, rest) =>
      if ArmStart(ch, at) <= pc < ArmStart(ch, at) + SizeBlock(body) {
        BlockContains(body, ArmStart(ch, at), d, rs, pc);
      } else if pc >= NextArm(ch, at) {
        ChainContains(rest, NextArm(ch, at), d, rs, pc);
      }
  }

  lemma {:induction false} CasesContain(cases: seq<Case>, at: nat, h: nat, rs: seq<Region>, pc: nat)
    requires at <= pc < at + SizeCases(cases)
    ensures Contain(CasesMark(cases, at, h, rs, pc).inside, rs, pc)
    decreases cases, 0
  {
    var next := at + 24 + SizeBlock(cases[0].body) + 5;
    if at + 24 <= pc < next - 5 {
      BlockContains(cases[0].body, at + 24, h, rs, pc);
    } else if pc >= next {
      CasesContain(cases[1..], next, h, rs, pc);
    }
  }

  lemma FunctionWithin(f: Function)
    ensures forall pc: nat :: Within(FunctionMarks(f), pc)
  {
    hide BlockMark, SizeBlock;
    forall pc: nat
      ensures Within(FunctionMarks(f), pc)
    {
      var start := 9 * |f.params|;
      if start <= pc < start + SizeBlock(f.body) {
        BlockContains(f.body, start, 0, [], pc);
      }
    }
  }

  lemma TopWithin(body: seq<Stmt>)
    ensures forall pc: nat :: Within(TopMarks(body), pc)
  {
    hide BlockMark, SizeBlock;
    forall pc: nat
      ensures Within(TopMarks(body), pc)
    {
      if pc < SizeBlock(body) {
        BlockContains(body, 0, 0, [], pc);
      }
    }
  }
}
