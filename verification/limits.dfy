/** Where unrolling does change what a program means: four programs that behave differently
    once unrolled, because an iteration breaks out, the counter is read behind the loop,
    the body assigns the counter, or the bounds are past 2^53. */
module Limits {
  import opened Bytes
  import opened Syntax
  import opened Semantics
  import opened Lowering
  import opened Values
  import opened Unrolling
  import opened Simulation

  function SetTo(name: string, e: Expr): Stmt {
    Assign([To(name)], false, e)
  }

  function Num(i: int): Expr {
    Literal(IntLit(i))
  }

  /** `counter = start`, a loop while `counter < bound` around `work`, then `last`. */
  function Program(start: int, bound: int, work: seq<Stmt>, last: Stmt): seq<Stmt> {
    [SetTo("i", Num(start)), LoopOf(bound, work), last]
  }

  function LoopOf(bound: int, work: seq<Stmt>): Stmt {
    Loop(Some(Apply(Binary(Lt), [Ident("i"), Num(bound)])), work + [Assign([To("i")], true, Num(1))])
  }

  lemma ProgramPair(start: int, bound: int, work: seq<Stmt>, last: Stmt)
    requires 0 < bound - start <= MaxUnroll
    ensures Pair(Program(start, bound, work, last)) && Work(LoopOf(bound, work)) == work
    ensures MatchCounted(SetTo("i", Num(start)), LoopOf(bound, work)) == Some(Counted("i", start, bound - start))
  {
    var loop := LoopOf(bound, work);
    assert loop.body[|loop.body| - 1] == Assign([To("i")], true, Num(1));
    assert loop.body[..|loop.body| - 1] == work;
  }

  function Begin(w: World, v: int): State {
    BindName("i", IntV(v), State(GlobalScope, w))
  }

  /** The loop test on a state in which the counter is `v`. */
  lemma {:induction false} TestOn(env: Env, w: World, v: int, bound: int, fuel: nat)
    requires IntOps(env) && IsI64(v) && IsI64(bound)
    ensures Eval(env, Apply(Binary(Lt), [Ident("i"), Num(bound)]), Begin(w, v), 0, fuel)
         == Val(BoolV(Ordered(Binary(Lt), v, bound)), Begin(w, v))
  {
    var st, es := Begin(w, v), [Ident("i"), Num(bound)];
    assert IntOpsAt(env, v, bound, st.w.heap);
    assert es[1..] == [Num(bound)];
    assert EvalAll(env, es[1..], st, 0, fuel) == Vals([IntV(bound)], st);
    assert EvalAll(env, es, st, 0, fuel) == Vals([IntV(v), IntV(bound)], st);
    assert st.(w := st.w.(heap := st.w.heap)) == st;
  }

  /** The source program: what its loop does decides what comes behind it. */
  lemma {:induction false} ProgramRuns(env: Env, start: int, bound: int, work: seq<Stmt>, last: Stmt, w: World,
      fuel: nat)
    requires 0 < bound - start <= MaxUnroll
    ensures ExecBlock(env, Program(start, bound, work, last), State(GlobalScope, w), 0, fuel)
         == match ExecLoop(env, LoopOf(bound, work), Begin(w, start), 0, fuel)
            case Normal(st1) => ExecBlock(env, [last], st1, 0, fuel)
            case r => r
  {
    var p := Program(start, bound, work, last);
    ProgramPair(start, bound, work, last);
    PairRuns(env, p, State(GlobalScope, w), 0, fuel);
    assert p[2..] == [last];
  }

  /** The unrolled program of `bound - start == 1`: one copy of the work, then the rest. */
  lemma {:induction false} UnrolledRuns(env: Env, start: int, bound: int, work: seq<Stmt>, last: Stmt, st: State,
      fuel: nat)
    requires bound - start == 1
    ensures ExecBlock(env, LowerBlock(Program(start, bound, work, last), map[]), st, 0, fuel)
         == match ExecBlock(env, LowerStmts(work, map["i" := start]), st, 0, fuel)
            case Normal(st1) => ExecBlock(env, LowerBlock([last], map[]), st1, 0, fuel)
            case r => r
  {
    var p, c, k: Consts := Program(start, bound, work, last), Counted("i", start, 1), map[];
    ProgramPair(start, bound, work, last);
    assert p[2..] == [last] && k["i" := start] == map["i" := start];
    var copies := Copies(work, c, 0, k);
    assert Copies(work, c, 1, k) == [];
    assert copies == [Block(LowerStmts(work, map["i" := start]))] + [];
    HeadRuns(env, copies, LowerBlock([last], k), st, 0, fuel);
    HeadRuns(env, LowerStmts(work, map["i" := start]), [], st, 0, fuel);
  }

  lemma {:induction false} SetRuns(env: Env, n: string, v: int, st: State, fuel: nat)
    ensures ExecBlock(env, [SetTo(n, Num(v))], st, 0, fuel) == Normal(BindName(n, IntV(v), st))
  {
    var s := SetTo(n, Num(v));
    assert [s][1..] == [];
    assert Eval(env, s.value, st, 0, fuel) == Val(IntV(v), st);
    assert Exec(env, s, st, 0, fuel) == Normal(BindName(n, IntV(v), st));
  }

  lemma LastLowered(s: Stmt)
    requires LowerStmt(s, map[]) == s
    ensures LowerBlock([s], map[]) == [s]
  {
  }

  /** `loop i < 1 { break }` and an assignment behind it. */
  const EscapingBreak := Program(0, 1, [Break], SetTo("y", Num(7)))

  /** A `break` in an unrolled body no longer has its loop: it leaves whatever is around,
      here the whole program, and the statement behind the loop is lost. */
  lemma {:induction false} BreakEscapes(env: Env, w: World, fuel: nat)
    requires IntOps(env) && "y" !in w.globals
    ensures var e := SourceEnding(env, EscapingBreak, w, fuel); e.Completed? && "y" in e.w.globals
    ensures var e := SourceEnding(LowerEnv(env), LowerBlock(EscapingBreak, map[]), w, fuel);
            e.Completed? && "y" !in e.w.globals
  {
    var loop, st, last := LoopOf(1, [Break]), Begin(w, 0), SetTo("y", Num(7));
    ProgramRuns(env, 0, 1, [Break], last, w, fuel);
    TestOn(env, w, 0, 1, fuel);
    ToDoubleExact(0);
    ToDoubleExact(1);
    assert loop.body == [Break, Assign([To("i")], true, Num(1))];
    assert ExecBlock(env, loop.body, st, 0, fuel) == Broke(st);
    SetRuns(env, "y", 7, st, fuel);
    var top := State(GlobalScope, w);
    UnrolledRuns(LowerEnv(env), 0, 1, [Break], last, top, fuel);
    assert LowerStmts([Break], map["i" := 0]) == [Break];
    assert ExecBlock(LowerEnv(env), [Break], top, 0, fuel) == Broke(top);
  }

  /** `loop i < 1 {}` and the counter read behind it. */
  const CounterRead := Program(0, 1, [], Return(Ident("i")))

  /** The source returns the last value of the counter. */
  lemma {:induction false} CounterKept(env: Env, w: World, fuel: nat)
    requires IntOps(env) && fuel > 0
    ensures var e := SourceEnding(env, CounterRead, w, fuel); e.Completed? && e.result == IntV(1)
  {
    var loop, st, st1, last := LoopOf(1, []), Begin(w, 0), Begin(w, 1), Return(Ident("i"));
    ProgramRuns(env, 0, 1, [], last, w, fuel);
    TestOn(env, w, 0, 1, fuel);
    TestOn(env, w, 1, 1, fuel - 1);
    ToDoubleExact(0);
    ToDoubleExact(1);
    assert loop.body == [Assign([To("i")], true, Num(1))];
    IncrementRuns(env, loop.body[0], "i", 0, st, 0, fuel);
    assert BindName("i", IntV(1), st) == st1;
    assert ExecBlock(env, loop.body[1..], st1, 0, fuel) == Normal(st1);
    assert ExecBlock(env, loop.body, st, 0, fuel) == Normal(st1);
    assert ExecLoop(env, loop, st1, 0, fuel - 1) == Normal(st1);
    assert Eval(env, Ident("i"), st1, 0, fuel) == Val(IntV(1), st1);
    assert Exec(env, last, st1, 0, fuel) == Returned(IntV(1), st1);
  }

  /** The counter of an unrolled loop is never assigned. Reading it behind the loop gives the
      source's value exactly if a global of its name happens to have that value before. */
  lemma {:induction false} CounterReadExactly(env: Env, w: World, fuel: nat)
    requires IntOps(env) && fuel > 0
    ensures
      var e, e1 := SourceEnding(env, CounterRead, w, fuel),
        SourceEnding(LowerEnv(env), LowerBlock(CounterRead, map[]), w, fuel);
      && e.Completed? && e.result == IntV(1)
      && (e1.Completed? && e1.result == e.result <==> "i" in w.globals && w.globals["i"] == IntV(1))
      && ("i" !in w.globals ==> e1.Crashed?)
  {
    CounterKept(env, w, fuel);
    var last, top := Return(Ident("i")), State(GlobalScope, w);
    UnrolledRuns(LowerEnv(env), 0, 1, [], last, top, fuel);
    LastLowered(last);
    ReadRuns(LowerEnv(env), top, fuel);
  }

  lemma ReadRuns(env: Env, st: State, fuel: nat)
    ensures ExecBlock(env, [Return(Ident("i"))], st, 0, fuel)
         == match LoadName("i", st.sc, st.w) case Ok(v) => Returned(v, st) case Raised(x) => Faulted(x, st)
  {
    var last := Return(Ident("i"));
    assert Eval(env, Ident("i"), st, 0, fuel) == match LoadName("i", st.sc, st.w) case Ok(v) => Val(v,
      st) case Raised(x) => Fault(x, st);
    assert Exec(env, last, st, 0, fuel) == match LoadName("i", st.sc, st.w) case Ok(v) => Returned(v,
      st) case Raised(x) => Faulted(x, st);
  }

  /** `loop i < 1 { i = v }`: the body assigns the counter. */
  function CounterReset(v: int): seq<Stmt> {
    Program(0, 1, [SetTo("i", Num(v))], SetTo("y", Num(7)))
  }

  /** One round of it. */
  lemma {:induction false} ResetRound(env: Env, w: World, v: int, from: int, fuel: nat)
    requires IntOps(env) && IsI64(v) && IsI64(v + 1)
    ensures ExecBlock(env, LoopOf(1, [SetTo("i", Num(v))]).body, Begin(w, from), 0, fuel) == Normal(Begin(w, v + 1))
  {
    var work, inc := [SetTo("i", Num(v))], Assign([To("i")], true, Num(1));
    var st, back := Begin(w, from), Begin(w, v);
    assert LoopOf(1, work).body == work + [inc];
    SetRuns(env, "i", v, st, fuel);
    assert BindName("i", IntV(v), st) == back;
    IncrementRuns(env, inc, "i", v, back, 0, fuel);
    assert BindName("i", IntV(v + 1), back) == Begin(w, v + 1);
    AppendRuns(env, work, inc, st, 0, fuel);
  }

  /** The test compares doubles, but a bound of 1 is exact. */
  lemma BelowOne(v: int)
    ensures Ordered(Binary(Lt), v, 1) <==> v < 1
  {
    ToDoubleExact(1);
    ToDoubleExact(0);
    if v < 1 {
      ToDoubleOrder(v, 0);
    } else {
      ToDoubleOrder(1, v);
    }
  }

  /** Back below the bound the source loop never ends. */
  lemma {:induction false} ResetForever(env: Env, w: World, v: int, from: int, fuel: nat)
    requires IntOps(env) && IsI64(v) && v < 0 && IsI64(from) && from < 1
    ensures ExecLoop(env, LoopOf(1, [SetTo("i", Num(v))]), Begin(w, from), 0, fuel) == OutOfFuel
    decreases fuel
  {
    hide Eval, ExecBlock, Ordered;
    TestOn(env, w, from, 1, fuel);
    BelowOne(from);
    ResetRound(env, w, v, from, fuel);
    if fuel > 0 {
      ResetForever(env, w, v, v + 1, fuel - 1);
    }
  }

  /** Otherwise it ends after one round. */
  lemma {:induction false} ResetOnce(env: Env, w: World, v: int)
    requires IntOps(env) && IsI64(v) && IsI64(v + 1) && v >= 0
    ensures ExecLoop(env, LoopOf(1, [SetTo("i", Num(v))]), Begin(w, 0), 0, 1) == Normal(Begin(w, v + 1))
  {
    hide Eval, ExecBlock, Ordered;
    TestOn(env, w, 0, 1, 1);
    BelowOne(0);
    ResetRound(env, w, v, 0, 1);
    TestOn(env, w, v + 1, 1, 0);
    BelowOne(v + 1);
    assert ExecLoop(env, LoopOf(1, [SetTo("i", Num(v))]), Begin(w, v + 1), 0, 0) == Normal(Begin(w, v + 1));
  }

  /** A body that assigns the counter: the copy always ends, the source exactly if it does
      not take the counter back. */
  lemma {:induction false} ResetExactly(env: Env, w: World, v: int)
    requires IntOps(env) && IsI64(v) && IsI64(v + 1)
    ensures (exists fuel :: !SourceEnding(env, CounterReset(v), w, fuel).StillRunning?) <==> v >= 0
    ensures forall fuel :: SourceEnding(LowerEnv(env), LowerBlock(CounterReset(v), map[]), w, fuel).Completed?
  {
    hide SourceEnding;
    forall fuel: nat
      ensures v < 0 ==> SourceEnding(env, CounterReset(v), w, fuel).StillRunning?
      ensures v >= 0 && fuel == 1 ==> !SourceEnding(env, CounterReset(v), w, fuel).StillRunning?
      ensures SourceEnding(LowerEnv(env), LowerBlock(CounterReset(v), map[]), w, fuel).Completed?
    {
      ResetEndings(env, w, v, fuel);
    }
    assert v >= 0 ==> !SourceEnding(env, CounterReset(v), w, 1).StillRunning?;
  }

  lemma ResetEndings(env: Env, w: World, v: int, fuel: nat)
    requires IntOps(env) && IsI64(v) && IsI64(v + 1)
    ensures v < 0 ==> SourceEnding(env, CounterReset(v), w, fuel).StillRunning?
    ensures v >= 0 && fuel == 1 ==> !SourceEnding(env, CounterReset(v), w, fuel).StillRunning?
    ensures SourceEnding(LowerEnv(env), LowerBlock(CounterReset(v), map[]), w, fuel).Completed?
  {
    hide Eval, Exec, ExecLoop, LowerStmts, LowerBlock;
    var work, last, top := [SetTo("i", Num(v))], SetTo("y", Num(7)), State(GlobalScope, w);
    ProgramRuns(env, 0, 1, work, last, w, fuel);
    if v < 0 {
      ResetForever(env, w, v, 0, fuel);
    } else if fuel == 1 {
      ResetOnce(env, w, v);
      SetRuns(env, "y", 7, Begin(w, v + 1), 1);
    }
    UnrolledRuns(LowerEnv(env), 0, 1, work, last, top, fuel);
    WorkLowered(v);
    SetRuns(LowerEnv(env), "i", v, top, fuel);
    LastLowered(last);
    SetRuns(LowerEnv(env), "y", 7, BindName("i", IntV(v), top), fuel);
  }

  lemma WorkLowered(v: int)
    ensures LowerStmts([SetTo("i", Num(v))], map["i" := 0]) == [SetTo("i", Num(v))]
  {
  }

  /** `loop i < 2^53 + 1` from 2^53: the two bounds are the same double. */
  const RoundedBound := Program(Mantissa, Mantissa + 1, [SetTo("y", Num(7))], SetTo("z", Num(8)))

  /** Past 2^53 the loop test rounds: the source loop does not run, its copy does. */
  lemma {:induction false} BoundRounds(env: Env, w: World, fuel: nat)
    requires IntOps(env) && "y" !in w.globals
    ensures var e := SourceEnding(env, RoundedBound, w, fuel); e.Completed? && "y" !in e.w.globals
    ensures var e := SourceEnding(LowerEnv(env), LowerBlock(RoundedBound, map[]), w, fuel);
            e.Completed? && "y" in e.w.globals
  {
    var n, work, last := Mantissa, [SetTo("y", Num(7))], SetTo("z", Num(8));
    var st, top := Begin(w, n), State(GlobalScope, w);
    ProgramRuns(env, n, n + 1, work, last, w, fuel);
    TestOn(env, w, n, n + 1, fuel);
    ToDoubleExact(n);
    assert ToDouble(n + 1) == n by {
      assert Excess((n + 1) / 2) == 0 && Excess(n + 1) == 1 && Pow2(1) == 2 * Pow2(0) == 2;
    }
    assert ExecLoop(env, LoopOf(n + 1, work), st, 0, fuel) == Normal(st);
    SetRuns(env, "z", 8, st, fuel);
    UnrolledRuns(LowerEnv(env), n, n + 1, work, last, top, fuel);
    var low := LowerStmts(work, map["i" := n]);
    assert low == work;
    var st1 := BindName("y", IntV(7), top);
    SetRuns(LowerEnv(env), "y", 7, top, fuel);
    LastLowered(last);
    SetRuns(LowerEnv(env), "z", 8, st1, fuel);
  }
}
