/** From the program as written to the bytes that run.

    A package is compiled, with its counted loops unrolled, into bytes; the interpreter
    decodes and runs those bytes. It ends exactly when the source program ends, with the
    same result and the same world, up to the globals that are counters of unrolled loops. */
module EndToEnd {
  import opened Bytes
  import opened Syntax
  import opened Semantics
  import opened Machine
  import opened Layout
  import opened Encoding
  import opened Lowering
  import opened Fuel
  import opened Values
  import opened Unrolling
  import opened Converse
  import opened Simulation
  import opened Emitter
  import opened Calling
  import Package
  import Stack
  import Listing
  import Disassembler

  /** The same ending, up to globals that are in `stale`. */
  ghost predicate EndingSame(e: Ending, e1: Ending, stale: set<string>) {
    match e
    case Completed(v, w) => e1.Completed? && e1.result == v && WorldSame(w, e1.w, stale)
    case Crashed(x, w) => e1.Crashed? && e1.exn == x && WorldSame(w, e1.w, stale)
    case StillRunning => e1.StillRunning?
  }

  ghost predicate WorldSame(w: World, w1: World, stale: set<string>) {
    w.heap == w1.heap && Without(w.globals, stale) == Without(w1.globals, stale)
  }

  /** What is asked of a package for its loops to be unrolled safely: the counters of its
      top-level loops are hidden from functions and host. */
  ghost predicate Unrollable(env: Env, top: seq<Stmt>, globals: set<string>) {
    var names := Names(false, BlockCounters(top), globals);
    Setting(env, names) && SafeBlock(top, {}, {}, names)
  }

  lemma TopLinked(env: Env, top: seq<Stmt>, globals: set<string>, w: World)
    requires Unrollable(env, top, globals) && w.globals.Keys <= globals
    ensures Start(Scene(Names(false, BlockCounters(top), globals), map[], map[]), env, map[], {},
                  State(GlobalScope, w), State(GlobalScope, w))
  {
    var none: Consts := map[];
    assert none.Keys == {};
  }

  lemma SameEnding(sc: Scene, top: seq<Stmt>, r: StmtResult, q: StmtResult)
    requires Same(sc, map[], {} + BlockCounters(top), {} + BlockCounters(top), r, q) && !r.OutOfFuel?
    requires !sc.names.local && sc.names.hidden == BlockCounters(top)
    ensures !q.OutOfFuel? && WorldSame(r.st.w, q.st.w, BlockCounters(top))
  {
    var c := BlockCounters(top);
    assert ({} + c) * c == c;
  }

  /** Unrolling, one way: if the source ends, the unrolled program ends the same. */
  lemma UnrolledEnds(env: Env, top: seq<Stmt>, globals: set<string>, w: World, fuel: nat)
    requires Unrollable(env, top, globals) && w.globals.Keys <= globals
      && !SourceEnding(env, top, w, fuel).StillRunning?
    ensures EndingSame(SourceEnding(env, top, w, fuel), SourceEnding(LowerEnv(env), LowerBlock(top, map[]), w, fuel),
                       BlockCounters(top))
  {
    var st, sc := State(GlobalScope, w), Scene(Names(false, BlockCounters(top), globals), map[], map[]);
    var none: Consts := map[];
    TopLinked(env, top, globals, w);
    assert none.Keys == {};
    BlockLowered(sc, env, none, {}, top, st, st, 0, fuel);
    SameEnding(sc, top, ExecBlock(env, top, st, 0, fuel), ExecBlock(LowerEnv(env), LowerBlock(top, none), st, 0, fuel));
  }

  /** The other way: if the unrolled program ends, so does the source, the same. */
  lemma SourceEnds(env: Env, top: seq<Stmt>, globals: set<string>, w: World, fuel: nat) returns (g: nat)
    requires Unrollable(env, top, globals) && w.globals.Keys <= globals
    requires !SourceEnding(LowerEnv(env), LowerBlock(top, map[]), w, fuel).StillRunning?
    ensures EndingSame(SourceEnding(env, top, w, g), SourceEnding(LowerEnv(env), LowerBlock(top, map[]), w, fuel),
                       BlockCounters(top))
    ensures !SourceEnding(env, top, w, g).StillRunning?
  {
    var st, sc := State(GlobalScope, w), Scene(Names(false, BlockCounters(top), globals), map[], map[]);
    var none: Consts := map[];
    TopLinked(env, top, globals, w);
    assert none.Keys == {};
    g := BlockEnds(sc, env, none, {}, top, st, st, 0, fuel);
    SameEnding(sc, top, ExecBlock(env, top, st, 0, g), ExecBlock(LowerEnv(env), LowerBlock(top, none), st, 0, fuel));
  }

  // ---- the whole way ----

  /** The entry of the function table that loading blob `i` makes: its parameters are what
      the loader finds in the bytes. The machine never looks at the body. */
  function Entry(m: Package.Compiled, d: Package.Declared, i: nat): Function
    requires i < |m.blobs|
  {
    Function(Reverse(StoredNames(m.blobs[i], m.strings, 0)), LowerBlock(d.def.body, map[]))
  }

  /** The source environment has the declared functions. */
  ghost predicate Declares(env: Env, fs: seq<Package.Declared>) {
    && env.funs.Keys == (set d | d in fs :: d.name)
    && forall d | d in fs :: d.name in env.funs && env.funs[d.name] == d.def
  }

  /** `im` is the interpreter with the compiled package loaded: every name finds its blob,
      and the function table is read off the blobs. */
  ghost predicate LoadedFrom(im: Image, m: Package.Compiled, fs: seq<Package.Declared>, blob: string, env: Env) {
    && |m.blobs| == |fs| && im.code(blob) == View(m.init, m.strings)
    && im.env.(funs := map[]) == env.(funs := map[])
    && im.env.funs.Keys == (set d | d in fs :: d.name)
    && (forall i {:trigger m.blobs[i]} | 0 <= i < |fs| ::
          && im.code(fs[i].name) == View(m.blobs[i], m.strings)
          && fs[i].name in im.env.funs && im.env.funs[fs[i].name] == Entry(m, fs[i], i))
  }

  /** Reading the parameters off the blobs gives back the declared functions. */
  lemma TableRecovered(im: Image, m: Package.Compiled, fs: seq<Package.Declared>, top: seq<Stmt>, blob: string,
      env: Env)
    requires LoadedFrom(im, m, fs, blob, env) && Declares(env, fs) && Package.Faithful(m, fs, top)
    ensures im.env == LowerEnv(env)
  {
    var low := LowerEnv(env);
    forall f | f in im.env.funs
      ensures f in low.funs && im.env.funs[f] == low.funs[f]
    {
      var d :| d in fs && d.name == f;
      var i :| 0 <= i < |fs| && fs[i] == d;
      assert Package.CompiledFunction(View(m.blobs[i], m.strings), LowerFunction(fs[i].def));
      ParametersRecovered(m.blobs[i], m.strings, LowerFunction(fs[i].def));
    }
    assert im.env.funs == low.funs;
  }

  predicate WfPackage(fs: seq<Package.Declared>, top: seq<Stmt>) {
    WfBlock(top) && forall d | d in fs :: WfBlock(d.def.body)
  }

  lemma LoadedCorrectly(im: Image, m: Package.Compiled, fs: seq<Package.Declared>, top: seq<Stmt>, blob: string,
      env: Env)
    requires LoadedFrom(im, m, fs, blob, env) && Declares(env, fs) && WfPackage(fs, top) && Package.Faithful(m, fs, top)
    ensures im.env == LowerEnv(env) && Loaded(im)
    ensures WfBlock(LowerBlock(top, map[])) && TopAt(im.code(blob), LowerBlock(top, map[]))
  {
    TableRecovered(im, m, fs, top, blob, env);
    LowerBlockWf(top, map[]);
    forall f | f in im.env.funs
      ensures WfBlock(im.env.funs[f].body) && FunctionAt(im.code(f), im.env.funs[f])
    {
      var d :| d in fs && d.name == f;
      var i :| 0 <= i < |fs| && fs[i] == d;
      assert Package.CompiledFunction(View(m.blobs[i], m.strings), LowerFunction(fs[i].def));
      LowerBlockWf(d.def.body, map[]);
    }
  }

  /** If the source program ends, the machine running the compiled bytes ends the same. */
  lemma BytesFollowSource(im: Image, m: Package.Compiled, fs: seq<Package.Declared>, top: seq<Stmt>, blob: string,
      env: Env, globals: set<string>, w: World, fuel: nat) returns (n: nat)
    requires LoadedFrom(im, m, fs, blob, env) && Declares(env, fs) && WfPackage(fs, top) && Package.Faithful(m, fs, top)
    requires Unrollable(env, top, globals) && w.globals.Keys <= globals
      && !SourceEnding(env, top, w, fuel).StillRunning?
    ensures EndingSame(SourceEnding(env, top, w, fuel), EndingOf(Steps(im, Boot(blob, w), n)), BlockCounters(top))
  {
    LoadedCorrectly(im, m, fs, top, blob, env);
    UnrolledEnds(env, top, globals, w, fuel);
    n := MachineFollows(im, blob, LowerBlock(top, map[]), w, fuel);
  }

  /** If the machine running the compiled bytes ends, the source program ends the same. */
  lemma SourceFollowsBytes(im: Image, m: Package.Compiled, fs: seq<Package.Declared>, top: seq<Stmt>, blob: string,
      env: Env, globals: set<string>, w: World, n: nat) returns (fuel: nat)
    requires LoadedFrom(im, m, fs, blob, env) && Declares(env, fs) && WfPackage(fs, top) && Package.Faithful(m, fs, top)
    requires Unrollable(env, top, globals) && w.globals.Keys <= globals
    requires !EndingOf(Steps(im, Boot(blob, w), n)).StillRunning?
    ensures EndingSame(SourceEnding(env, top, w, fuel), EndingOf(Steps(im, Boot(blob, w), n)), BlockCounters(top))
  {
    LoadedCorrectly(im, m, fs, top, blob, env);
    SourceFollows(im, blob, LowerBlock(top, map[]), w, n);
    fuel := SourceEnds(env, top, globals, w, n);
  }

  /** However long the compiled bytes run, the next instruction finds its operands, and a
      fault of it would find the handler of the innermost protected block around it with
      that block's operands in place; where after unrolling no `break` crosses a `match`,
      the stack is as deep as the offset says, each time it is reached. */
  lemma BytesAlwaysSane(im: Image, m: Package.Compiled, fs: seq<Package.Declared>, top: seq<Stmt>, blob: string,
      env: Env, w: World, n: nat)
    requires LoadedFrom(im, m, fs, blob, env) && Declares(env, fs) && WfPackage(fs, top) && Package.Faithful(m, fs, top)
    requires blob !in env.funs
    ensures
      var c, plans := Steps(im, Boot(blob, w), n), Stack.PlansOf(im, blob, LowerBlock(top, map[]));
      c.Running? ==> c.top.blob in plans && Stack.Sane(plans[c.top.blob], c.top)
  {
    hide Steps, Stack.PlansOf, Stack.Sane, Unrollable;
    AllListed(im, m, fs, top, blob, env);
    Stack.AlwaysSane(im, blob, LowerBlock(top, map[]), w, n);
  }

  lemma AllListed(im: Image, m: Package.Compiled, fs: seq<Package.Declared>, top: seq<Stmt>, blob: string, env: Env)
    requires LoadedFrom(im, m, fs, blob, env) && Declares(env, fs) && WfPackage(fs, top) && Package.Faithful(m, fs, top)
    requires blob !in env.funs
    ensures Stack.Listed(im, blob, LowerBlock(top, map[]))
  {
    hide Disassembler.WellFormed, FunctionAt, TopAt, Loaded, Listing.FunctionCode, Listing.TopCode, WfBlock;
    LoadedCorrectly(im, m, fs, top, blob, env);
    forall f | f in im.env.funs
      ensures Disassembler.WellFormed(im.code(f), Listing.FunctionCode(im.env.funs[f])) && WfBlock(im.env.funs[f].body)
    {
      var d :| d in fs && d.name == f;
      var i :| 0 <= i < |fs| && fs[i] == d;
      assert Package.CompiledFunction(View(m.blobs[i], m.strings), LowerFunction(fs[i].def));
      LowerBlockWf(d.def.body, map[]);
    }
  }
}
