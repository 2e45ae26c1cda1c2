/** One package with a counted loop, from its compilation to the end of its run: it meets
    everything the end-to-end theorems ask for. */
module Sample {
  import opened Bytes
  import opened Syntax
  import opened Semantics
  import opened Encoding
  import opened Lowering
  import opened Values
  import opened Unrolling
  import opened Simulation
  import opened EndToEnd
  import opened Limits
  import opened Machine
  import opened Listing
  import opened Layout
  import opened Emitter
  import opened Counts
  import opened DebugMaps
  import Package

  /** Integer comparison and addition; everything else yields null. */
  function Arithmetic(op: Op, vs: seq<Value>, heap: seq<Cell>): (Outcome, seq<Cell>) {
    if |vs| == 2 && vs[0].IntV? && vs[1].IntV? then
      if op == Binary(Lt) || op == Binary(Le) then (Ok(BoolV(Ordered(op, vs[0].i, vs[1].i))), heap)
      else if op == Binary(Add) && IsI64(vs[0].i + vs[1].i) then (Ok(IntV(vs[0].i + vs[1].i)), heap)
      else (Ok(NullV), heap)
    else (Ok(NullV), heap)
  }

  const Plain: Env := Env(map[], (op, vs, heap) => Arithmetic(op, vs, heap), (v, heap) => None,
    (f, vs, w) => (Ok(NullV), w))

  /** `i = 0`, `loop i < 2 { y = 7; i += 1 }`, `z = 8`. */
  const Top: seq<Stmt> := Program(0, 2, [SetTo("y", Num(7))], SetTo("z", Num(8)))

  const Globals: set<string> := {"i", "y", "z"}

  lemma TopSafe(names: Names)
    requires names == Names(false, {"i"}, Globals)
    ensures BlockCounters(Top) == {"i"} && SafeBlock(Top, {}, {}, names)
  {
    var init, loop, last := SetTo("i", Num(0)), LoopOf(2, [SetTo("y", Num(7))]), SetTo("z", Num(8));
    ProgramPair(0, 2, [SetTo("y", Num(7))], last);
    var work := Work(loop);
    assert work == [SetTo("y", Num(7))] && work[1..] == [];
    assert ListCounters(work) == {};
    assert Top[2..] == [last] && [last][1..] == [];
    assert BlockCounters([last]) == {};
    assert PairCounters(init, loop) == {"i"};
    assert BlockCounters(Top) == {"i"} + {};
    SmallBoundsExact(init, loop);
    assert SafeList(work, {"i"}, {} + {"i"}, names);
    assert SafePair(init, loop, {}, {}, names) by { assert {} + {"i"} == {"i"}; }
    assert SafeStmt(last, {}, {"i"}, names);
    assert SafeBlock([last], {}, {} + {"i"}, names);
  }

  lemma TopUnrollable()
    ensures Unrollable(Plain, Top, Globals) && BlockCounters(Top) == {"i"}
  {
    var names := Names(false, {"i"}, Globals);
    TopSafe(names);
    forall a, b, heap | IsI64(a) && IsI64(b)
      ensures IntOpsAt(Plain, a, b, heap)
    {
    }
    forall f, vs, w, w1
      ensures BlindAt(Plain, names, f, vs, w, w1)
    {
    }
  }

  // ---- the source ----

  /** The world with `y` assigned. */
  function WithY(w: World): World {
    w.(globals := w.globals["y" := IntV(7)])
  }

  /** The world in the end. */
  function After(w: World): World {
    w.(globals := w.globals["i" := IntV(2)]["y" := IntV(7)]["z" := IntV(8)])
  }

  const Body: seq<Stmt> := [SetTo("y", Num(7))]

  lemma RoundRuns(w: World, v: int, fuel: nat)
    requires 0 <= v < 2
    ensures ExecBlock(Plain, LoopOf(2, Body).body, Begin(w, v), 0, fuel) == Normal(Begin(WithY(w), v + 1))
  {
    var inc, st := Assign([To("i")], true, Num(1)), Begin(w, v);
    var st1 := BindName("y", IntV(7), st);
    hide Exec, Eval, ExecLoop;
    assert LoopOf(2, Body).body == Body + [inc];
    SetRuns(Plain, "y", 7, st, fuel);
    IncrementRuns(Plain, inc, "i", v, st1, 0, fuel);
    AppendRuns(Plain, Body, inc, st, 0, fuel);
    hide ExecBlock;
    SameState(w, v);
  }

  lemma SameState(w: World, v: int)
    ensures BindName("i", IntV(v + 1), BindName("y", IntV(7), Begin(w, v))) == Begin(WithY(w), v + 1)
  {
    assert BindName("i", IntV(v + 1), BindName("y", IntV(7), Begin(w, v))).w.globals
      == Begin(WithY(w), v + 1).w.globals;
  }

  lemma RoundsRun(w: World)
    ensures ExecLoop(Plain, LoopOf(2, Body), Begin(w, 0), 0, 2) == Normal(Begin(WithY(w), 2))
  {
    hide Eval, ExecBlock, ToDouble;
    var w1 := WithY(w);
    assert WithY(w1) == w1;
    ToDoubleExact(0);
    ToDoubleExact(1);
    ToDoubleExact(2);
    TestOn(Plain, w, 0, 2, 2);
    RoundRuns(w, 0, 2);
    TestOn(Plain, w1, 1, 2, 1);
    RoundRuns(w1, 1, 1);
    TestOn(Plain, w1, 2, 2, 0);
    assert ExecLoop(Plain, LoopOf(2, Body), Begin(w1, 2), 0, 0) == Normal(Begin(w1, 2));
    assert ExecLoop(Plain, LoopOf(2, Body), Begin(w1, 1), 0, 1) == Normal(Begin(w1, 2));
  }

  /** The source ends. */
  lemma SourceRuns(w: World)
    ensures SourceEnding(Plain, Top, w, 2) == Completed(NullV, After(w))
  {
    hide Eval, ExecLoop;
    var last, st := SetTo("z", Num(8)), Begin(WithY(w), 2);
    ProgramRuns(Plain, 0, 2, Body, last, w, 2);
    RoundsRun(w);
    SetRuns(Plain, "z", 8, st, 2);
    assert BindName("z", IntV(8), st).w.globals == After(w).globals;
  }

  // ---- its code ----

  const Low: seq<Stmt> := [Block([Block(Body), Block(Body)]), SetTo("z", Num(8))]

  lemma TopLowered()
    ensures LowerBlock(Top, map[]) == Low
  {
    var none: Consts := map[];
    var c, last := Counted("i", 0, 2), SetTo("z", Num(8));
    ProgramPair(0, 2, Body, last);
    assert Top[2..] == [last];
    LastLowered(last);
    assert LowerStmts(Body, none["i" := 0]) == Body && LowerStmts(Body, none["i" := 1]) == Body;
    assert Copies(Body, c, 2, none) == [];
    assert Copies(Body, c, 1, none) == [Block(Body)] + [];
    assert Copies(Body, c, 0, none) == [Block(Body)] + ([Block(Body)] + []) == [Block(Body), Block(Body)];
    assert Work(Top[1]) == Body && Pair(Top) && MatchCounted(Top[0], Top[1]).value == c;
    hide Copies, LowerStmts, MatchCounted;
    assert LowerBlock(Top, none) == [Block(Copies(Body, c, 0, none))] + LowerBlock(Top[2..], none);
  }

  function SetCode(name: string, v: int): seq<Instr> {
    [Push(IntLit(v)), Store(name)]
  }

  lemma SetCoded(name: string, v: int, at: nat, brk: nat)
    requires |name| == 1
    ensures BlockCode([SetTo(name, Num(v))], at, brk) == SetCode(name, v) && SizeBlock([SetTo(name, Num(v))]) == 18
  {
    assert [SetTo(name, Num(v))][1..] == [];
    assert SizeStmt(SetTo(name, Num(v))) == 18;
  }

  lemma BlockCoded(ss: seq<Stmt>, rest: seq<Stmt>, at: nat, brk: nat)
    ensures BlockCode([Block(ss)] + rest, at, brk) == BlockCode(ss, at, brk) + BlockCode(rest, at + SizeBlock(ss), brk)
    ensures SizeBlock([Block(ss)] + rest) == SizeBlock(ss) + SizeBlock(rest)
  {
    assert ([Block(ss)] + rest)[1..] == rest;
  }

  lemma TopCoded()
    ensures Package.TopSize(Top) == 55
    ensures TopCode(LowerBlock(Top, map[])) == SetCode("y", 7) + (SetCode("y", 7) + []) + SetCode("z", 8) + [Instr.Halt]
  {
    hide BlockCode, SizeBlock, LowerBlock;
    var last, copies := [SetTo("z", Num(8))], [Block(Body)] + ([Block(Body)] + []);
    TopLowered();
    assert copies == [Block(Body), Block(Body)];
    assert Low == [Block(copies)] + last;
    BlockCoded(copies, last, 0, 54);
    BlockCoded(Body, [Block(Body)] + [], 0, 54);
    BlockCoded(Body, [], 18, 54);
    NothingCoded(36, 54);
    SetCoded("y", 7, 0, 54);
    SetCoded("y", 7, 18, 54);
    SetCoded("z", 8, 36, 54);
  }

  lemma NothingCoded(at: nat, brk: nat)
    ensures BlockCode([], at, brk) == [] && SizeBlock([]) == 0
  {
  }

  lemma TopText()
    ensures ListText(TopCode(LowerBlock(Top, map[]))) == 3
  {
    hide LowerBlock, TopCode;
    TopCoded();
    var y, z := SetCode("y", 7), SetCode("z", 8);
    SetText([], "y", 7);
    SetText([] + y, "y", 7);
    SetText([] + y + y, "z", 8);
    ListTextStep([] + y + y + z, Instr.Halt);
    assert [] + y + y + z + [Instr.Halt] == y + (y + []) + z + [Instr.Halt];
  }

  lemma SetText(list: seq<Instr>, name: string, v: int)
    ensures ListText(list + SetCode(name, v)) == ListText(list) + |name|
  {
    ListTextStep(list, Push(IntLit(v)));
    ListTextStep(list + [Push(IntLit(v))], Store(name));
    assert list + [Push(IntLit(v))] + [Store(name)] == list + SetCode(name, v);
  }

  lemma TopFits()
    ensures FitsBlock(Top) && !LongBlock(Top) && Package.SourceFits([], Top)
  {
    TopCoded();
    TopText();
    hide LowerBlock, TopCode, Package.TopSize, ListText;
    var loop := LoopOf(2, Body);
    LoopFits(loop);
    assert FitsStmt(SetTo("i", Num(0))) && FitsStmt(SetTo("z", Num(8)));
    assert !LongStmt(SetTo("i", Num(0))) && !LongStmt(SetTo("z", Num(8)));
    Cons(SetTo("z", Num(8)), []);
    Cons(loop, [SetTo("z", Num(8))] + []);
    Cons(SetTo("i", Num(0)), [loop] + ([SetTo("z", Num(8))] + []));
    assert Top == [SetTo("i", Num(0))] + ([loop] + ([SetTo("z", Num(8))] + []));
  }

  lemma LoopFits(loop: Stmt)
    requires loop == LoopOf(2, Body)
    ensures FitsStmt(loop) && !LongStmt(loop)
  {
    var test, inc, work := Apply(Binary(Lt), [Ident("i"), Num(2)]), Assign([To("i")], true, Num(1)), SetTo("y", Num(7));
    assert FitsExpr(Ident("i")) && FitsExpr(Num(2));
    assert FitsExpr(test);
    assert test.operands[1..] == [Num(2)] && [Num(2)][1..] == [];
    assert !LongExprs([Num(2)]) && !LongExprs(test.operands);
    assert FitsStmt(work) && FitsStmt(inc) && !LongStmt(work) && !LongStmt(inc);
    Cons(inc, []);
    Cons(work, [inc] + []);
    assert loop.body == [work] + ([inc] + []);
  }

  /** Compiling the sample reports no error, and its bytes are faithful. */
  method CompileSample(places: (nat, nat) -> Position) returns (m: Package.Compiled)
    ensures !m.failed && Package.Faithful(m, [], Top)
  {
    hide Package.Faithful, Package.SourceFits, Package.Small, Package.Mapped;
    TopFits();
    m := Package.CompilePackage([], Top, places);
  }

  // ---- its run ----

  /** The interpreter with the compiled package loaded. */
  function Interpreter(m: Package.Compiled): Image {
    Image(Plain, (name: string) => View(m.init, m.strings))
  }

  lemma SampleLoaded(m: Package.Compiled, blob: string)
    requires Package.Faithful(m, [], Top)
    ensures LoadedFrom(Interpreter(m), m, [], blob, Plain) && Declares(Plain, [])
  {
  }

  lemma LoopWf(loop: Stmt)
    requires loop == LoopOf(2, Body)
    ensures WfStmt(loop)
  {
    var inc, es, nothing: seq<Stmt> := Assign([To("i")], true, Num(1)), [Ident("i"), Num(2)], [];
    assert WfStmt(inc) && WfBlock(nothing);
    ConsWf(inc, nothing);
    assert [inc] + nothing == [inc];
    ConsWf(SetTo("y", Num(7)), [inc]);
    assert [SetTo("y", Num(7))] + [inc] == loop.body;
    assert es[1..] == [Num(2)] && [Num(2)][1..] == [];
    assert WfExprs([Num(2)]) && WfExprs(es);
  }

  lemma TopWf()
    ensures WfBlock(Top)
  {
    var last, nothing: seq<Stmt> := SetTo("z", Num(8)), [];
    LoopWf(LoopOf(2, Body));
    hide LoopOf;
    ConsWf(last, nothing);
    ConsWf(LoopOf(2, Body), [last] + nothing);
    ConsWf(SetTo("i", Num(0)), [LoopOf(2, Body)] + ([last] + nothing));
    assert Top == [SetTo("i", Num(0))] + ([LoopOf(2, Body)] + ([last] + nothing));
  }

  /** The bytes come to an end: `y` is 7 and `z` is 8, whatever the world was before, and
      nothing else has changed but the counter. */
  lemma SampleRuns(m: Package.Compiled, blob: string, w: World) returns (n: nat)
    requires Package.Faithful(m, [], Top) && w.globals.Keys <= Globals
    ensures var e := EndingOf(Steps(Interpreter(m), Boot(blob, w), n));
            && e.Completed? && e.result == NullV && e.w.heap == w.heap
            && Without(e.w.globals, {"i"}) == Without(w.globals["y" := IntV(7)]["z" := IntV(8)], {"i"})
  {
    hide Unrollable, SourceEnding, EndingOf, Setting, SafeBlock, BlockCounters, Steps, Declares, LoadedFrom, WfBlock,
      Package.Faithful;
    TopWf();
    TopUnrollable();
    SampleLoaded(m, blob);
    SourceRuns(w);
    n := BytesFollowSource(Interpreter(m), m, [], Top, blob, Plain, Globals, w, 2);
    assert Without(After(w).globals, {"i"}) == Without(w.globals["y" := IntV(7)]["z" := IntV(8)], {"i"});
  }
}
