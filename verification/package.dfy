/** Compiling a whole package, and what running the bytes that come out of it means. */
module Package {
  import opened Bytes
  import opened Syntax
  import opened Semantics
  import opened Machine
  import opened Layout
  import opened Encoding
  import opened Listing
  import opened Blobs
  import opened Lowering
  import opened Emitter
  import opened Disassembler
  import opened DebugMaps
  import opened Simulation
  import opened Counts

  /** A declared function and its name. */
  datatype Declared = Declared(name: string, def: Function)

  /** The bytes of a package: its top-level code, one blob for each function, and the
      string table they share. `failed` says that errors were reported. Each blob has its
      debug map. */
  datatype Compiled = Compiled(init: seq<Byte>, blobs: seq<seq<Byte>>, strings: seq<Byte>, failed: bool,
                               initMap: seq<Loc>, maps: seq<seq<Loc>>)

  predicate Small(m: Compiled) {
    |m.init| < U32 && |m.strings| < U32 && forall b | b in m.blobs :: |b| < U32
  }

  /** Blob `b` holds the instructions `list`, apart from reported errors. */
  ghost predicate Holding(b: Blob, list: seq<Instr>, tab: Table, failed: bool) {
    Sound(b) && Inside(b) && b.pending == {} && b.emitted == list && Grows(b.tab, tab) && (b.failed ==> failed)
  }

  /** A finished blob, read against the string table as it is in the end. */
  lemma HeldCode(b: Blob, list: seq<Instr>, tab: Table, strs: seq<Byte>)
    requires Holding(b, list, tab, false) && TableOk(tab, strs) && |b.code| < U32 && |strs| < U32
    ensures ListedAt(View(b.code, strs), 0, list) && WellFormed(View(b.code, strs), list)
  {
    var b1 := b.(tab := tab);
    GrowOk(b, b1);
    assert Inside(b1) by {
      forall pc | pc in b1.instrs && IsJump(b1.instrs[pc]) && pc + 1 !in b1.pending
        ensures TargetOf(b1.instrs[pc]) in b1.instrs
      {
        assert Linked(b, pc);
      }
    }
    CompleteListed(b1, strs);
    BlobWellFormed(b1, strs);
  }

  /** The code is laid out as the function requires, and it is nothing but that. */
  ghost predicate CompiledFunction(c: Code, f: Function) {
    FunctionAt(c, f) && WellFormed(c, FunctionCode(f)) && ListedAt(c, 0, FunctionCode(f))
  }

  ghost predicate CompiledTop(c: Code, body: seq<Stmt>) {
    TopAt(c, body) && WellFormed(c, TopCode(body))
  }

  /** The compiled package says what its source says. */
  ghost predicate Faithful(m: Compiled, fs: seq<Declared>, top: seq<Stmt>) {
    && |m.blobs| == |fs| && CompiledTop(View(m.init, m.strings), LowerBlock(top, map[]))
    && forall i {:trigger m.blobs[i]} | 0 <= i < |fs| ::
      CompiledFunction(View(m.blobs[i], m.strings), LowerFunction(fs[i].def))
  }

  /** The size of a function's code. */
  function FunctionSize(f: Function): nat {
    9 * |f.params| + SizeBlock(LowerBlock(f.body, map[])) + 2
  }

  /** The size of a package's top-level code. */
  function TopSize(top: seq<Stmt>): nat {
    SizeBlock(LowerBlock(top, map[])) + 1
  }

  /** A function's code is as long as its source says, and its debug map is sorted, stays
      within it and begins with the body's first statement, at `p`. */
  predicate FunctionMapped(f: Function, code: seq<Byte>, anchors: seq<Loc>, p: Position) {
    && |code| == FunctionSize(f) && UpTo(anchors, |code|)
    && (f.body != [] && p.line > 0 ==> StartsWith(anchors, 9 * |f.params|, p))
  }

  predicate TopMapped(top: seq<Stmt>, code: seq<Byte>, anchors: seq<Loc>, p: Position) {
    && |code| == TopSize(top) && UpTo(anchors, |code|)
    && (top != [] && p.line > 0 ==> StartsWith(anchors, 0, p))
  }

  method CompileFunction(f: Function, strings: StringTable, places: nat -> Position)
    returns (code: seq<Byte>, failed: bool, anchors: seq<Loc>, ghost b: Blob)
    requires strings.Valid() && FitsFunction(f)
    modifies strings
    ensures strings.Valid() && Grows(old(strings.interned), strings.interned)
    ensures b.code == code && Holding(b, FunctionCode(LowerFunction(f)), strings.interned, failed)
    ensures failed <==> LongBlock(f.body)
    ensures |strings.data| <= |old(strings.data)| + ListText(FunctionCode(LowerFunction(f)))
    ensures FunctionMapped(f, code, anchors, places(0))
  {
    var emitter := new CodeEmitter(strings, places);
    emitter.EmitFunctionCode(f);
    code, failed, anchors, b := emitter.builder.code, emitter.failed, emitter.anchors, emitter.Now();
    FailedExactly(b);
    FunctionCounts(f);
  }

  method CompileTop(top: seq<Stmt>, strings: StringTable, places: nat -> Position)
    returns (code: seq<Byte>, failed: bool, anchors: seq<Loc>, ghost b: Blob)
    requires strings.Valid() && FitsBlock(top)
    modifies strings
    ensures strings.Valid() && Grows(old(strings.interned), strings.interned)
    ensures b.code == code && Holding(b, TopCode(LowerBlock(top, map[])), strings.interned, failed)
    ensures failed <==> LongBlock(top)
    ensures |strings.data| <= |old(strings.data)| + ListText(TopCode(LowerBlock(top, map[])))
    ensures TopMapped(top, code, anchors, places(0))
  {
    var emitter := new CodeEmitter(strings, places);
    emitter.EmitToplevel(top);
    code, failed, anchors, b := emitter.builder.code, emitter.failed, emitter.anchors, emitter.Now();
    FailedExactly(b);
    TopCounts(top);
  }

  ghost predicate AllHolding(bs: seq<Blob>, fs: seq<Declared>, tab: Table, failed: bool) {
    |bs| <= |fs| && forall i {:trigger bs[i]} | 0 <= i < |bs| ::
      Holding(bs[i], FunctionCode(LowerFunction(fs[i].def)), tab, failed)
  }

  /** Some function has a list too long for its count. */
  predicate LongIn(fs: seq<Declared>) {
    fs != [] && (LongIn(fs[..|fs| - 1]) || LongBlock(fs[|fs| - 1].def.body))
  }

  /** All names and literals of some functions. */
  function FunctionsText(fs: seq<Declared>): nat {
    if fs == [] then 0 else FunctionsText(fs[..|fs| - 1]) + ListText(FunctionCode(LowerFunction(fs[|fs| - 1].def)))
  }

  /** The code and the text of the package take less than 4 GiB each. */
  predicate SourceFits(fs: seq<Declared>, top: seq<Stmt>) {
    && TopSize(top) < U32 && (forall d | d in fs :: FunctionSize(d.def) < U32)
    && FunctionsText(fs) + ListText(TopCode(LowerBlock(top, map[]))) < U32
  }

  predicate Mapped(m: Compiled, fs: seq<Declared>, top: seq<Stmt>, places: (nat, nat) -> Position) {
    && |m.blobs| == |m.maps| == |fs| && TopMapped(top, m.init, m.initMap, places(|fs|, 0))
    && forall i | 0 <= i < |fs| :: FunctionMapped(fs[i].def, m.blobs[i], m.maps[i], places(i, 0))
  }

  /** Compile every function and the top-level statements of a package against `strings`. */
  method CompileInto(fs: seq<Declared>, top: seq<Stmt>, strings: StringTable, places: (nat, nat) -> Position)
    returns (m: Compiled, ghost b: Blob, ghost bs: seq<Blob>)
    requires strings.Valid() && FitsBlock(top) && forall d | d in fs :: FitsFunction(d.def)
    modifies strings
    ensures strings.Valid() && Grows(old(strings.interned), strings.interned) && m.strings == strings.data
    ensures |strings.data| <= |old(strings.data)| + FunctionsText(fs) + ListText(TopCode(LowerBlock(top, map[])))
    ensures Mapped(m, fs, top, places) && (m.failed <==> LongIn(fs) || LongBlock(top))
    ensures Held(m.init, m.blobs, fs, top, b, bs, strings.interned, m.failed)
  {
    hide ListText, FunctionsText, FunctionMapped, TopMapped, LongIn, LongBlock, Sound, Inside, FunctionCode, TopCode,
      LowerFunction, LowerBlock, Grows;
    var blobs, maps, failed;
    blobs, maps, failed, bs := CompileFunctions(fs, strings, places);
    ghost var tab := strings.interned;
    var init, err, initMap;
    var last: nat := |fs|;
    init, err, initMap, b := CompileTop(top, strings, (k: nat) => places(last, k));
    GrowsTwice(old(strings.interned), tab, strings.interned);
    AllStillHolding(bs, fs, tab, strings.interned, failed, failed || err);
    m := Compiled(init, blobs, strings.data, failed || err, initMap, maps);
  }

  /** The bytes hold the code of a package, apart from reported errors. */
  ghost predicate Held(init: seq<Byte>, blobs: seq<seq<Byte>>, fs: seq<Declared>, top: seq<Stmt>, b: Blob,
      bs: seq<Blob>, tab: Table, failed: bool) { && b.code == init
      && Holding(b, TopCode(LowerBlock(top, map[])), tab, failed) && |bs| == |blobs| == |fs|
      && AllHolding(bs, fs, tab, failed) && forall i | 0 <= i < |bs| :: bs[i].code == blobs[i] }

  lemma StillHeld(init: seq<Byte>, blobs: seq<seq<Byte>>, fs: seq<Declared>, top: seq<Stmt>, b: Blob, bs: seq<Blob>,
                  tab: Table, tab1: Table, failed: bool, failed1: bool)
    requires Held(init, blobs, fs, top, b, bs, tab, failed) && Grows(tab, tab1) && (failed ==> failed1)
    ensures Held(init, blobs, fs, top, b, bs, tab1, failed1)
  {
    hide FunctionCode, LowerFunction, TopCode, LowerBlock, Sound, Inside;
    AllStillHolding(bs, fs, tab, tab1, failed, failed1);
  }

  /** Compile a package on its own. An error is reported exactly if some list is too long
      for its count; unless one is, what the interpreter reads is the code of each
      function and of the top level. */
  method CompilePackage(fs: seq<Declared>, top: seq<Stmt>, places: (nat, nat) -> Position) returns (m: Compiled)
    requires FitsBlock(top) && forall d | d in fs :: FitsFunction(d.def)
    ensures Mapped(m, fs, top, places)
    ensures m.failed <==> LongIn(fs) || LongBlock(top)
    ensures SourceFits(fs, top) ==> Small(m)
    ensures !m.failed && Small(m) ==> Faithful(m, fs, top)
  {
    hide ListText, FunctionsText, Mapped, LongIn, LongBlock, FunctionCode, TopCode, LowerFunction, LowerBlock, Faithful,
      Held;
    var strings := new StringTable();
    ghost var b, bs;
    m, b, bs := CompileInto(fs, top, strings, places);
    MappedSmall(m, fs, top, places);
    if !m.failed && Small(m) {
      AllFaithful(m, fs, top, b, bs, strings.interned);
    }
  }

  lemma MappedSmall(m: Compiled, fs: seq<Declared>, top: seq<Stmt>, places: (nat, nat) -> Position)
    requires Mapped(m, fs, top, places) && |m.strings| <= FunctionsText(fs) + ListText(TopCode(LowerBlock(top, map[])))
    ensures SourceFits(fs, top) ==> Small(m)
  {
    hide FunctionSize, TopSize, FunctionsText, ListText, TopCode, LowerBlock, UpTo;
    if SourceFits(fs, top) {
      forall b | b in m.blobs
        ensures |b| < U32
      {
        var i: nat :| i < |m.blobs| && m.blobs[i] == b;
        assert fs[i] in fs;
      }
    }
  }

  lemma AllFaithful(m: Compiled, fs: seq<Declared>, top: seq<Stmt>, b: Blob, bs: seq<Blob>, tab: Table)
    requires Small(m) && TableOk(tab, m.strings)
    requires Held(m.init, m.blobs, fs, top, b, bs, tab, false)
    ensures Faithful(m, fs, top)
  {
    hide Holding, LowerBlock, TableOk;
    HeldCode(b, TopCode(LowerBlock(top, map[])), tab, m.strings);
    TopListed(View(m.init, m.strings), LowerBlock(top, map[]));
    forall i | 0 <= i < |fs|
      ensures CompiledFunction(View(m.blobs[i], m.strings), LowerFunction(fs[i].def))
    {
      assert bs[i].code == m.blobs[i] && m.blobs[i] in m.blobs;
      HeldCode(bs[i], FunctionCode(LowerFunction(fs[i].def)), tab, m.strings);
      FunctionListed(View(m.blobs[i], m.strings), LowerFunction(fs[i].def));
    }
  }

  method CompileFunctions(fs: seq<Declared>, strings: StringTable, places: (nat, nat) -> Position)
    returns (blobs: seq<seq<Byte>>, maps: seq<seq<Loc>>, failed: bool, ghost bs: seq<Blob>)
    requires strings.Valid() && forall d | d in fs :: FitsFunction(d.def)
    modifies strings
    ensures strings.Valid() && |bs| == |blobs| == |maps| == |fs| && AllHolding(bs, fs, strings.interned, failed)
    ensures forall i | 0 <= i < |fs| ::
      bs[i].code == blobs[i] && FunctionMapped(fs[i].def, blobs[i], maps[i], places(i, 0))
    ensures failed <==> LongIn(fs)
    ensures |strings.data| <= |old(strings.data)| + FunctionsText(fs) && Grows(old(strings.interned), strings.interned)
  {
    hide Grows, ListText, FunctionMapped, LongBlock, Sound, Inside, FitsFunction, FunctionCode, LowerFunction;
    blobs, maps, failed, bs := [], [], false, [];
    GrowsSelf(strings.interned);
    for i := 0 to |fs|
      invariant strings.Valid() && |bs| == |blobs| == |maps| == i && AllHolding(bs, fs, strings.interned, failed)
      invariant forall j | 0 <= j < i ::
        bs[j].code == blobs[j] && FunctionMapped(fs[j].def, blobs[j], maps[j], places(j, 0))
      invariant failed <==> LongIn(fs[..i])
      invariant |strings.data| <= |old(strings.data)| + FunctionsText(fs[..i])
        && Grows(old(strings.interned), strings.interned)
    {
      ghost var b;
      ghost var tab := strings.interned;
      var code, err, anchors;
      var at: nat := i;
      code, err, anchors, b := CompileFunction(fs[i].def, strings, (k: nat) => places(at, k));
      GrowsTwice(old(strings.interned), tab, strings.interned);
      AllStillHolding(bs, fs, tab, strings.interned, failed, failed || err);
      HoldingReported(b, FunctionCode(LowerFunction(fs[i].def)), strings.interned, err, failed || err);
      assert fs[..i + 1][..i] == fs[..i] && fs[..i + 1][i] == fs[i];
      blobs, maps, failed, bs := blobs + [code], maps + [anchors], failed || err, bs + [b];
    }
    assert fs[..|fs|] == fs;
  }

  /** More text and more errors change nothing about a finished blob. */
  lemma HoldingReported(b: Blob, list: seq<Instr>, tab: Table, failed: bool, failed1: bool)
    requires Holding(b, list, tab, failed) && (failed ==> failed1)
    ensures Holding(b, list, tab, failed1)
  {
  }

  lemma AllStillHolding(bs: seq<Blob>, fs: seq<Declared>, tab: Table, tab1: Table, failed: bool, failed1: bool)
    requires AllHolding(bs, fs, tab, failed) && Grows(tab, tab1) && (failed ==> failed1)
    ensures AllHolding(bs, fs, tab1, failed1)
  {
    hide FunctionCode, LowerFunction, Sound, Inside;
  }
}
