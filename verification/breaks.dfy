/** Which statements a `break` can get out of. */
module Breaks {
  import opened Syntax
  import opened Semantics

  /** Whether a `break` in `s` would leave a loop around `s`. */
  predicate BreaksOut(s: Stmt)
    decreases s, 1
  {
    match s
    case Break => true
    case Block(body) => BlockBreaksOut(body)
    case If(chain) => ChainBreaksOut(chain)
    case Match(_, cases) => CasesBreakOut(cases)
    case Monitor(body, _, handler) => BlockBreaksOut(body) || BlockBreaksOut(handler)
    case _ => false
  }

  predicate BlockBreaksOut(ss: seq<Stmt>)
    decreases ss, 0
  {
    ss != [] && (BreaksOut(ss[0]) || BlockBreaksOut(ss[1..]))
  }

  predicate ChainBreaksOut(ch: Chain)
    decreases ch, 0
  {
    match ch
    case Else(els) => BlockBreaksOut(els)
    case Elif(_, _, body, rest) => BlockBreaksOut(body) || ChainBreaksOut(rest)
  }

  predicate CasesBreakOut(cases: seq<Case>)
    decreases cases, 0
  {
    cases != [] && (BlockBreaksOut(cases[0].body) || CasesBreakOut(cases[1..]))
  }

  /** No `break` in `s` leaves a `match`. */
  predicate Tidy(s: Stmt)
    decreases s, 1
  {
    match s
    case Block(body) => BlockTidy(body)
    case If(chain) => ChainTidy(chain)
    case Loop(_, body) => BlockTidy(body)
    case Match(_, cases) => CasesTidy(cases) && !CasesBreakOut(cases)
    case Monitor(body, _, handler) => BlockTidy(body) && BlockTidy(handler)
    case _ => true
  }

  predicate BlockTidy(ss: seq<Stmt>)
    decreases ss, 0
  {
    ss == [] || (Tidy(ss[0]) && BlockTidy(ss[1..]))
  }

  predicate ChainTidy(ch: Chain)
    decreases ch, 0
  {
    match ch
    case Else(els) => BlockTidy(els)
    case Elif(_, _, body, rest) => BlockTidy(body) && ChainTidy(rest)
  }

  predicate CasesTidy(cases: seq<Case>)
    decreases cases, 0
  {
    cases == [] || (BlockTidy(cases[0].body) && CasesTidy(cases[1..]))
  }

  lemma {:induction false} BindAllNeverBroke(env: Env, ts: seq<Target>, addAssign: bool, vs: seq<Value>, st: State)
    requires |ts| == |vs|
    ensures !BindAll(env, ts, addAssign, vs, st).Broke?
    decreases |ts|
  {
    if ts != [] {
      var r := if addAssign && ts[0].To? then AddTo(env, ts[0].name, vs[0], st)
        else Normal(BindTarget(ts[0], vs[0], st));
      if r.Normal? {
        BindAllNeverBroke(env, ts[1..], addAssign, vs[1..], r.st);
      }
    }
  }

  lemma AssignNeverBroke(env: Env, s: Stmt, st: State, depth: nat, fuel: nat)
    requires s.Assign?
    ensures !ExecAssign(env, s, st, depth, fuel).Broke?
  {
    var r := Eval(env, s.value, st, depth, fuel);
    if r.Val? && |s.targets| != 1 {
      var vs := Unpacked(env, r.v, |s.targets|, r.st.w.heap);
      if vs.Some? {
        BindAllNeverBroke(env, s.targets, s.addAssign, vs.value, r.st);
      }
    }
  }

  lemma {:induction false} NeverBroke(env: Env, s: Stmt, st: State, depth: nat, fuel: nat)
    requires !BreaksOut(s)
    ensures !Exec(env, s, st, depth, fuel).Broke?
    decreases fuel, s, 1
  {
    match s
    case Assign(_, _, _) => AssignNeverBroke(env, s, st, depth, fuel);
    case Block(body) => BlockNeverBroke(env, body, st, depth, fuel);
    case If(chain) => ChainNeverBroke(env, chain, st, depth, fuel);
    case Loop(_, _) => LoopNeverBroke(env, s, st, depth, fuel);
    case Match(scrutinee, cases) =>
      var r := Eval(env, scrutinee, st, depth, fuel);
      if r.Val? {
        CasesNeverBroke(env, r.v, cases, r.st, depth, fuel);
      }
    case Monitor(body, trap, handler) =>
      var r := ExecBlock(env, body, st, depth, fuel);
      BlockNeverBroke(env, body, st, depth, fuel);
      if r.Faulted? {
        BlockNeverBroke(env, handler, BindName(trap, ExnV(r.exn), r.st), depth, fuel);
      }
    case _ =>
  }

  lemma {:induction false} BlockNeverBroke(env: Env, ss: seq<Stmt>, st: State, depth: nat, fuel: nat)
    requires !BlockBreaksOut(ss)
    ensures !ExecBlock(env, ss, st, depth, fuel).Broke?
    decreases fuel, ss, 0
  {
    if ss != [] {
      NeverBroke(env, ss[0], st, depth, fuel);
      var r := Exec(env, ss[0], st, depth, fuel);
      if r.Normal? {
        BlockNeverBroke(env, ss[1..], r.st, depth, fuel);
      }
    }
  }

  lemma {:induction false} ChainNeverBroke(env: Env, ch: Chain, st: State, depth: nat, fuel: nat)
    requires !ChainBreaksOut(ch)
    ensures !ExecChain(env, ch, st, depth, fuel).Broke?
    decreases fuel, ch, 0
  {
    match ch
    case Else(els) => BlockNeverBroke(env, els, st, depth, fuel);
    case Elif(cond, _, body, rest) =>
      var r := Eval(env, cond, st, depth, fuel);
      if r.Val? {
        BlockNeverBroke(env, body, r.st, depth, fuel);
        ChainNeverBroke(env, rest, r.st, depth, fuel);
      }
  }

  lemma {:induction false} CasesNeverBroke(env: Env, v: Value, cases: seq<Case>, st: State, depth: nat, fuel: nat)
    requires !CasesBreakOut(cases)
    ensures !ExecCases(env, v, cases, st, depth, fuel).Broke?
    decreases fuel, cases, 0
  {
    if cases != [] {
      var r := ApplyPrim(env, Binary(Eq), [v, EnumV(cases[0].enumName, cases[0].member)], st);
      if r.Val? {
        BlockNeverBroke(env, cases[0].body, r.st, depth, fuel);
        CasesNeverBroke(env, v, cases[1..], r.st, depth, fuel);
      }
    }
  }

  lemma {:induction false} LoopNeverBroke(env: Env, s: Stmt, st: State, depth: nat, fuel: nat)
    requires s.Loop?
    ensures !ExecLoop(env, s, st, depth, fuel).Broke?
    decreases fuel
  {
    var r := if s.cond.None? then Val(NullV, st) else Eval(env, s.cond.value, st, depth, fuel);
    if r.Val? {
      var b := ExecBlock(env, s.body, r.st, depth, fuel);
      if b.Normal? && fuel > 0 {
        LoopNeverBroke(env, s, b.st, depth, fuel - 1);
      }
    }
  }
}
