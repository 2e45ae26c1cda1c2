/** Exactly when unrolling a counted loop preserves meaning, for a loop whose counter is its
    own: when no iteration that is run leaves the loop by `break`, and when the test, which
    compares doubles, lets exactly as many iterations pass as the generator counted. */
module Escapes {
  import opened Bytes
  import opened Syntax
  import opened Semantics
  import opened Lowering
  import opened Values
  import opened Fuel
  import opened Unrolling

  /** An iteration that is run ends in `break`. */
  predicate Escaped(env: Env, loop: Stmt, st: State, depth: nat, fuel: nat)
    requires loop.Loop? && loop.cond.Some?
    decreases fuel
  {
    match Eval(env, loop.cond.value, st, depth, fuel)
    case Val(v, st1) =>
      IsTruthy(v) &&
      (match ExecBlock(env, loop.body, st1, depth, fuel)
       case Broke(_) => true
       case Normal(st2) => fuel > 0 && Escaped(env, loop, st2, depth, fuel - 1)
       case _ => false)
    case _ => false
  }

  /** How often the test lets an iteration pass. */
  function Rounds(env: Env, loop: Stmt, st: State, depth: nat, fuel: nat): nat
    requires loop.Loop? && loop.cond.Some?
    decreases fuel
  {
    match Eval(env, loop.cond.value, st, depth, fuel)
    case Val(v, st1) =>
      if !IsTruthy(v) then 0
      else 1 + (match ExecBlock(env, loop.body, st1, depth, fuel)
                case Normal(st2) => if fuel > 0 then Rounds(env, loop, st2, depth, fuel - 1) else 0
                case _ => 0)
    case _ => 0
  }

  /** The source has left the loop and goes on behind it; the copies are still to be left. */
  ghost predicate Left(sc: Scene, k: Consts, stale: set<string>, r: StmtResult, q: StmtResult) {
    r.Normal? && q.Broke? && Linked(sc, k, stale, r.st, q.st)
  }

  ghost predicate Together(sc: Scene, k: Consts, stale: set<string>, escaped: bool, r: StmtResult, q: StmtResult) {
    if escaped then Left(sc, k, stale, r, q) else Same(sc, k, stale, stale, r, q) && (q.Broke? ==> r.OutOfFuel?)
  }

  ghost predicate Counts(sc: Scene, k: Consts, stale: set<string>, loop: Stmt, c: Counted) {
    Counting(sc, k, stale, loop, c) && Exact(c, loop.cond.value.op, loop.cond.value.operands[1].lit.i)
  }

  lemma {:induction false} CopiesTogether(sc: Scene, env: Env, k: Consts, stale: set<string>, loop: Stmt, c: Counted,
      i: nat, st: State, lo: State, depth: nat, f: nat, fuel: nat)
    requires i <= c.trips && f <= fuel && Setting(env, sc.names) && Counts(sc, k, stale, loop, c)
    requires Linked(sc, k[c.counter := c.start + i], stale, st, lo)
    ensures Together(sc, k, stale, Escaped(env, loop, st, depth, f), ExecLoop(env, loop, st, depth, f),
                     ExecBlock(LowerEnv(env), Copies(Work(loop), c, i, k), lo, depth, fuel))
    decreases f, 2
  {
    hide Setting, Linked;
    TestRuns(sc, env, k, stale, loop, c, c.start + i, st, lo, depth, f);
    if i == c.trips {
      BoundLess(sc, k, c.counter, c.start + i, stale, st, lo);
    } else {
      IterationTogether(sc, env, k, stale, loop, c, i, st, lo, depth, f, fuel);
    }
  }

  lemma {:induction false} IterationTogether(sc: Scene, env: Env, k: Consts, stale: set<string>, loop: Stmt, c: Counted,
      i: nat, st: State, lo: State, depth: nat, f: nat, fuel: nat)
    requires i < c.trips && f <= fuel && Setting(env, sc.names) && Counts(sc, k, stale, loop, c)
    requires Linked(sc, k[c.counter := c.start + i], stale, st, lo)
    requires Eval(env, loop.cond.value, st, depth, f) == Val(BoolV(true), st)
    ensures Together(sc, k, stale, Escaped(env, loop, st, depth, f), LoopBody(env, loop, st, depth, f),
                     ExecBlock(LowerEnv(env), Copies(Work(loop), c, i, k), lo, depth, fuel))
    decreases f, 1
  {
    hide Setting, Linked, Exec, ExecLoop, Exact;
    var v, work, last := c.start + i, Work(loop), loop.body[|loop.body| - 1];
    var k1 := k[c.counter := v];
    var low := LowerStmts(work, k1);
    assert k1.Keys == k.Keys + {c.counter} && stale + ListCounters(work) == stale;
    ListLowered(sc, env, k1, stale, work, st, lo, depth, f);
    var r, q := ExecBlock(env, work, st, depth, f), ExecBlock(LowerEnv(env), low, lo, depth, f);
    assert loop.body == work + [last];
    AppendRuns(env, work, last, st, depth, f);
    if !r.OutOfFuel? {
      ExecBlockMore(LowerEnv(env), low, lo, depth, f, fuel);
      HeadRuns(LowerEnv(env), low, Copies(work, c, i + 1, k), lo, depth, fuel);
      BoundLess(sc, k, c.counter, v, stale, r.st, q.st);
      if r.Normal? {
        NextTogether(sc, env, k, stale, loop, c, i, r.st, q.st, depth, f, fuel);
      }
    }
  }

  lemma {:induction false} NextTogether(sc: Scene, env: Env, k: Consts, stale: set<string>, loop: Stmt, c: Counted,
      i: nat, st: State, lo: State, depth: nat, f: nat, fuel: nat)
    requires i < c.trips && f <= fuel && Setting(env, sc.names) && Counts(sc, k, stale, loop, c)
    requires Linked(sc, k[c.counter := c.start + i], stale, st, lo)
    ensures
      var st1 := BindName(c.counter, IntV(c.start + i + 1), st);
      && Exec(env, loop.body[|loop.body| - 1], st, depth, f) == Normal(st1)
      && (f > 0 ==> Together(sc, k, stale, Escaped(env, loop, st1, depth, f - 1),
        ExecLoop(env, loop, st1, depth, f - 1),
                             ExecBlock(LowerEnv(env), Copies(Work(loop), c, i + 1, k), lo, depth, fuel)))
    decreases f, 0
  {
    hide Linked, ExecBlock, ExecLoop, Copies, Together, Escaped;
    Incremented(sc, env, k, stale, loop, c, i, st, lo, depth, f);
    if f > 0 {
      CopiesTogether(sc, env, k, stale, loop, c, i + 1, BindName(c.counter, IntV(c.start + i + 1), st), lo, depth,
        f - 1, fuel);
    }
  }

  /** The last statement of an iteration counts on. */
  lemma Incremented(sc: Scene, env: Env, k: Consts, stale: set<string>, loop: Stmt, c: Counted, i: nat, st: State,
      lo: State, depth: nat, f: nat)
    requires i < c.trips && Setting(env, sc.names) && Counting(sc, k, stale, loop, c)
    requires Linked(sc, k[c.counter := c.start + i], stale, st, lo)
    ensures
      var st1 := BindName(c.counter, IntV(c.start + i + 1), st);
      && Exec(env, loop.body[|loop.body| - 1], st, depth, f) == Normal(st1)
      && Linked(sc, k[c.counter := c.start + (i + 1)], stale, st1, lo)
  {
    hide Blind, FunctionsSafe, Linked;
    var v, k1 := c.start + i, k[c.counter := c.start + i];
    LoadKnown(sc, k1, stale, st, lo, c.counter);
    IncrementRuns(env, loop.body[|loop.body| - 1], c.counter, v, st, depth, f);
    BindCounter(sc, k1, stale, st, lo, c.counter, v + 1);
    assert k1[c.counter := v + 1] == k[c.counter := c.start + (i + 1)];
  }

  /** Where the tests of rounds `i` and up stop. */
  lemma {:induction false} RoundsFrom(sc: Scene, env: Env, k: Consts, stale: set<string>, loop: Stmt, c: Counted,
      i: nat, st: State, lo: State, depth: nat, f: nat)
    requires i <= c.trips && Setting(env, sc.names) && Counting(sc, k, stale, loop, c)
    requires Linked(sc, k[c.counter := c.start + i], stale, st, lo)
    requires ExecLoop(env, loop, st, depth, f).Normal? && !Escaped(env, loop, st, depth, f)
    ensures
      var n, op, bound := Rounds(env, loop, st, depth, f), loop.cond.value.op, loop.cond.value.operands[1].lit.i;
      && (forall v | c.start + i <= v < c.start + i + n && v <= c.start + c.trips :: Ordered(op, v, bound))
      && (i + n <= c.trips ==> !Ordered(op, c.start + i + n, bound))
    decreases f
  {
    hide Setting, Linked, Exec, Ordered;
    var v, op, bound := c.start + i, loop.cond.value.op, loop.cond.value.operands[1].lit.i;
    TestRuns(sc, env, k, stale, loop, c, v, st, lo, depth, f);
    if Ordered(op, v, bound) && i < c.trips {
      var work, last := Work(loop), loop.body[|loop.body| - 1];
      var k1 := k[c.counter := v];
      assert k1.Keys == k.Keys + {c.counter} && stale + ListCounters(work) == stale;
      ListLowered(sc, env, k1, stale, work, st, lo, depth, f);
      assert loop.body == work + [last];
      AppendRuns(env, work, last, st, depth, f);
      var r, q := ExecBlock(env, work, st, depth, f), ExecBlock(LowerEnv(env), LowerStmts(work, k1), lo, depth, f);
      assert r.Normal? && f > 0;
      Incremented(sc, env, k, stale, loop, c, i, r.st, q.st, depth, f);
      RoundsFrom(sc, env, k, stale, loop, c, i + 1, BindName(c.counter, IntV(v + 1), r.st), q.st, depth, f - 1);
      assert Rounds(env, loop, st, depth, f) == 1
        + Rounds(env, loop, BindName(c.counter, IntV(v + 1), r.st), depth, f - 1);
    }
  }

  /** The state in which a counted loop starts. */
  function Started(c: Counted, st: State): State {
    BindName(c.counter, IntV(c.start), st)
  }

  /** A counted loop and its copies end alike exactly if no iteration that is run breaks
      out. If one does, the source goes on behind the loop while the copies are left by a
      `break` that is no longer theirs. */
  lemma BreakExactly(sc: Scene, env: Env, k: Consts, stale: set<string>, init: Stmt, loop: Stmt, st: State, lo: State,
      depth: nat, fuel: nat)
    requires MatchCounted(init, loop).Some? && Setting(env, sc.names) && Linked(sc, k, stale, st, lo)
    requires OwnsCounter(init, loop, k.Keys, stale, sc.names)
    requires Exact(MatchCounted(init, loop).value, loop.cond.value.op, loop.cond.value.operands[1].lit.i)
    requires !PairRun(env, init, loop, st, depth, fuel).OutOfFuel?
    ensures
      var c, all := MatchCounted(init, loop).value, stale + PairCounters(init, loop);
      var r, q := PairRun(env, init, loop, st, depth, fuel),
        ExecBlock(LowerEnv(env), Copies(Work(loop), c, 0, k), lo, depth, fuel);
      var escaped := Escaped(env, loop, Started(c, st), depth, fuel);
      (Same(sc, k, all, all, r, q) <==> !escaped) && (escaped ==> Left(sc, k, all, r, q))
  {
    hide Setting, Linked, ExecBlock, Copies, Exact, Escaped, ExecLoop;
    var c, all := MatchCounted(init, loop).value, stale + PairCounters(init, loop);
    LinkedMore(sc, k, stale, all, st, lo);
    BindCounter(sc, k, all, st, lo, c.counter, c.start);
    CopiesTogether(sc, env, k, all, loop, c, 0, Started(c, st), lo, depth, fuel, fuel);
  }

  /** A counted loop that comes to its end runs as many rounds as the generator counted
      exactly if the test is over where the generator says. */
  lemma RoundsExactly(sc: Scene, env: Env, k: Consts, stale: set<string>, init: Stmt, loop: Stmt, st: State, lo: State,
      depth: nat, fuel: nat)
    requires MatchCounted(init, loop).Some? && Setting(env, sc.names) && Linked(sc, k, stale, st, lo)
    requires OwnsCounter(init, loop, k.Keys, stale, sc.names)
    requires PairRun(env, init, loop, st, depth, fuel).Normal?
    requires !Escaped(env, loop, Started(MatchCounted(init, loop).value, st), depth, fuel)
    ensures
      var c := MatchCounted(init, loop).value;
      Rounds(env, loop, Started(c, st), depth, fuel) == c.trips
      <==> Exact(c, loop.cond.value.op, loop.cond.value.operands[1].lit.i)
  {
    hide Setting, Linked, ExecBlock, Escaped, Rounds, ExecLoop, Ordered;
    var c, all := MatchCounted(init, loop).value, stale + PairCounters(init, loop);
    LinkedMore(sc, k, stale, all, st, lo);
    BindCounter(sc, k, all, st, lo, c.counter, c.start);
    RoundsFrom(sc, env, k, all, loop, c, 0, Started(c, st), lo, depth, fuel);
    var n := Rounds(env, loop, Started(c, st), depth, fuel);
    assert n > c.trips ==> Ordered(loop.cond.value.op, c.start + c.trips, loop.cond.value.operands[1].lit.i);
  }
}
