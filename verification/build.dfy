/** From source to a loaded program: compile the packages against one string table, lay
    the image out, read it back, and find the code of every function in it. */
module Building {
  import opened Bytes
  import opened Syntax
  import opened Semantics
  import opened Machine
  import opened Encoding
  import opened Listing
  import opened Blobs
  import opened Lowering
  import opened Emitter
  import opened Disassembler
  import opened DebugMaps
  import opened Counts
  import opened Images
  import opened ImageWriter
  import opened ImageLoader
  import opened EndToEnd
  import opened Simulation
  import opened Unrolling
  import Package

  /** A package as it is written. */
  datatype Written = Written(name: string, fs: seq<Package.Declared>, top: seq<Stmt>)

  predicate Fits(u: Written) {
    FitsBlock(u.top) && forall d | d in u.fs :: FitsFunction(d.def)
  }

  predicate Long(u: Written) {
    Package.LongIn(u.fs) || LongBlock(u.top)
  }

  predicate AnyLong(us: seq<Written>) {
    us != [] && (AnyLong(us[..|us| - 1]) || Long(us[|us| - 1]))
  }

  function Codes(fs: seq<Func>): (r: seq<seq<Byte>>)
    ensures |r| == |fs|
  {
    seq(|fs|, i requires 0 <= i < |fs| => fs[i].code)
  }

  function Maps(fs: seq<Func>): (r: seq<seq<Loc>>)
    ensures |r| == |fs|
  {
    seq(|fs|, i requires 0 <= i < |fs| => fs[i].debug)
  }

  /** A loaded package, as the interpreter reads it. */
  function Read(p: Pack, strs: seq<Byte>): Package.Compiled {
    Package.Compiled(p.init, Codes(p.functions), strs, false, p.debug, Maps(p.functions))
  }

  /** The functions of a package, under their names. */
  function Named(fs: seq<Package.Declared>, m: Package.Compiled): (r: seq<Func>)
    requires |m.blobs| == |m.maps| == |fs|
    ensures |r| == |fs| && Codes(r) == m.blobs && Maps(r) == m.maps
  {
    seq(|fs|, i requires 0 <= i < |fs| => Func(fs[i].name, m.blobs[i], m.maps[i]))
  }

  predicate SameNames(p: Pack, u: Written) {
    p.name == u.name && |p.functions| == |u.fs| && forall i | 0 <= i < |u.fs| :: p.functions[i].name == u.fs[i].name
  }

  /** Everything has a size that its field in the image can say. */
  predicate PackFits(p: Pack) {
    && |p.init| < U32 && TextFits(p.name) && DebugFits(p.debug)
    && forall f | f in p.functions :: |f.code| < U32 && TextFits(f.name) && DebugFits(f.debug)
  }

  /** The interpreter finds the package's code in what was loaded. */
  ghost predicate Restored(p: Pack, strs: seq<Byte>, u: Written) {
    SameNames(p, u) && Package.Faithful(Read(p, strs), u.fs, u.top)
  }

  /** What the generator recorded about a package. */
  datatype Record = Record(b: Blob, bs: seq<Blob>)

  ghost predicate PackHeld(p: Pack, u: Written, r: Record, tab: Table, failed: bool) {
    SameNames(p, u) && Package.Held(p.init, Codes(p.functions), u.fs, u.top, r.b, r.bs, tab, failed)
  }

  ghost predicate AllHeld(ps: seq<Pack>, us: seq<Written>, rs: seq<Record>, tab: Table, failed: bool) {
    && |ps| == |rs| <= |us|
    && forall k {:trigger ps[k]} | 0 <= k < |ps| :: PackHeld(ps[k], us[k], rs[k], tab, failed)
  }

  lemma AllStillHeld(ps: seq<Pack>, us: seq<Written>, rs: seq<Record>, tab: Table, tab1: Table, failed: bool,
      failed1: bool)
    requires AllHeld(ps, us, rs, tab, failed) && Grows(tab, tab1) && (failed ==> failed1)
    ensures AllHeld(ps, us, rs, tab1, failed1)
  {
    hide Package.Held, SameNames;
    forall k | 0 <= k < |ps|
      ensures PackHeld(ps[k], us[k], rs[k], tab1, failed1)
    {
      Package.StillHeld(ps[k].init, Codes(ps[k].functions), us[k].fs, us[k].top, rs[k].b, rs[k].bs, tab, tab1, failed,
        failed1);
    }
  }

  // ---- finished packages ----

  lemma HeldWalks(b: Blob, list: seq<Instr>, tab: Table, strs: seq<Byte>)
    requires Package.Holding(b, list, tab, false) && TableOk(tab, strs) && |b.code| < U32 && |strs| < U32
    ensures Walk(b.code, strs, 0)
  {
    Package.HeldCode(b, list, tab, strs);
    hide Package.Holding, Decode, Walk;
    CoveredWalks(b.code, strs, list, 0);
    assert list[0..] == list;
  }

  /** A package whose code is held can be loaded again, and the interpreter finds it. */
  lemma HeldRestored(p: Pack, u: Written, r: Record, tab: Table, strs: seq<Byte>)
    requires PackHeld(p, u, r, tab, false) && PackFits(p) && TableOk(tab, strs) && |strs| < U32
    requires NamesKnown(p, tab) && MapsKnown(p, tab)
    ensures PackOk(p, tab, strs) && Restored(p, strs, u)
  {
    hide Package.Holding, FunctionCode, TopCode, LowerFunction, LowerBlock, TableOk, Walk, DebugKnown, DebugFits,
      Package.Faithful;
    HeldWalks(r.b, TopCode(LowerBlock(u.top, map[])), tab, strs);
    forall f | f in p.functions
      ensures FuncOk(f, tab, strs)
    {
      var i: nat :| i < |p.functions| && p.functions[i] == f;
      assert Codes(p.functions)[i] == f.code;
      assert Package.Holding(r.bs[i], FunctionCode(LowerFunction(u.fs[i].def)), tab, false);
      HeldWalks(r.bs[i], FunctionCode(LowerFunction(u.fs[i].def)), tab, strs);
    }
    assert Package.Small(Read(p, strs));
    Package.AllFaithful(Read(p, strs), u.fs, u.top, r.b, r.bs, tab);
  }

  // ---- the program ----

  predicate MapsSorted(p: Pack) {
    UpTo(p.debug, |p.init|) && forall f | f in p.functions :: UpTo(f.debug, |f.code|)
  }

  method CompileOne(u: Written, strings: StringTable, places: (nat, nat) -> Position)
    returns (p: Pack, failed: bool, ghost r: Record)
    requires strings.Valid() && Fits(u)
    modifies strings
    ensures strings.Valid() && Grows(old(strings.interned), strings.interned)
    ensures PackHeld(p, u, r, strings.interned, failed) && (failed <==> Long(u)) && MapsSorted(p)
  {
    hide Package.Held, Package.LongIn, LongBlock, Grows, FitsBlock, FitsFunction, UpTo, Package.FunctionSize,
      Package.TopSize;
    ghost var b, bs;
    var m;
    m, b, bs := Package.CompileInto(u.fs, u.top, strings, places);
    p, failed, r := Pack(u.name, Named(u.fs, m), m.init, m.initMap), m.failed, Record(b, bs);
  }

  method CompileAll(us: seq<Written>, strings: StringTable, places: (nat, nat, nat) -> Position)
    returns (ps: seq<Pack>, failed: bool, ghost rs: seq<Record>)
    requires strings.Valid() && forall u | u in us :: Fits(u)
    modifies strings
    ensures strings.Valid() && |ps| == |us| && AllHeld(ps, us, rs, strings.interned, failed)
    ensures (failed <==> AnyLong(us)) && forall p | p in ps :: MapsSorted(p)
  {
    hide PackHeld, Grows, Fits, MapsSorted, Long;
    ps, failed, rs := [], false, [];
    for k := 0 to |us|
      invariant strings.Valid() && |ps| == k && AllHeld(ps, us, rs, strings.interned, failed)
      invariant (failed <==> AnyLong(us[..k])) && forall p | p in ps :: MapsSorted(p)
    {
      ghost var tab := strings.interned;
      var at: nat := k;
      ghost var r;
      var p, err;
      p, err, r := CompileOne(us[k], strings, (i: nat, j: nat) => places(at, i, j));
      AllStillHeld(ps, us, rs, tab, strings.interned, failed, failed || err);
      StillPackHeld(p, us[k], r, strings.interned, err, failed || err);
      assert us[..k + 1][..k] == us[..k] && us[..k + 1][k] == us[k];
      ps, rs, failed := ps + [p], rs + [r], failed || err;
    }
    assert us[..|us|] == us;
  }

  lemma StillPackHeld(p: Pack, u: Written, r: Record, tab: Table, failed: bool, failed1: bool)
    requires PackHeld(p, u, r, tab, failed) && (failed ==> failed1)
    ensures PackHeld(p, u, r, tab, failed1)
  {
    hide Package.Held;
    GrowsSelf(tab);
    Package.StillHeld(p.init, Codes(p.functions), u.fs, u.top, r.b, r.bs, tab, tab, failed, failed1);
  }

  /** Compile a program, the entry package last, and lay its image out. An error is reported
      exactly if some list is too long for its count; unless one is, and as long as every
      size fits its field, loading the image gives back every package, and the interpreter
      finds in it the code of each of its functions. */
  method BuildImage(us: seq<Written>, places: (nat, nat, nat) -> Position)
    returns (out: array<Byte>, failed: bool, ghost ps: seq<Pack>)
    requires us != [] && forall u | u in us :: Fits(u)
    ensures fresh(out) && |ps| == |us| && (failed <==> AnyLong(us))
    ensures !failed && (forall p | p in ps :: PackFits(p)) && out.Length < U32 ==> ReadsBack(out[..], ps, us)
    ensures forall p | p in ps :: MapsSorted(p)
  {
    hide AnyLong, AllHeld, Fits, PackFits, AllNames, AllMapsKnown, TableOk, ImageOf, Images.Load, StringsOf, Restored,
      SameNames, MapsSorted;
    var strings := new StringTable();
    ghost var rs;
    var packs;
    packs, failed, rs := CompileAll(us, strings, places);
    ghost var tab := strings.interned;
    out := LayOut(packs, strings);
    ps := packs;
    AllStillHeld(ps, us, rs, tab, strings.interned, failed, failed);
    if !failed && (forall p | p in ps :: PackFits(p)) && out.Length < U32 {
      AllRestored(ps, us, rs, strings.interned, strings.data);
    }
  }

  /** The image reads back as these packages, and they say what was written. */
  ghost predicate ReadsBack(image: seq<Byte>, ps: seq<Pack>, us: seq<Written>) {
    && Images.Load(image) == Some(ps) && |ps| == |us|
    && forall k {:trigger ps[k]} | 0 <= k < |us| :: Restored(ps[k], StringsOf(image), us[k])
  }

  lemma AllRestored(ps: seq<Pack>, us: seq<Written>, rs: seq<Record>, tab: Table, strs: seq<Byte>)
    requires ps != [] && |ps| == |us| && AllHeld(ps, us, rs, tab, false) && AllNames(ps, tab) && AllMapsKnown(ps, tab)
    requires TableOk(tab, strs) && (forall p | p in ps :: PackFits(p))
      && |ImageOf(ps[..|ps| - 1], ps[|ps| - 1], tab, strs)| < U32
    ensures ReadsBack(ImageOf(ps[..|ps| - 1], ps[|ps| - 1], tab, strs), ps, us)
  {
    hide PackHeld, PackFits, AllNames, AllMapsKnown, TableOk, PackOk, Restored, Images.Load, StringsOf, ImageOf;
    var imports, main := ps[..|ps| - 1], ps[|ps| - 1];
    ImageHolds(imports, main, tab, strs);
    EachRestored(ps, us, rs, tab, strs);
    assert forall p | p in imports :: p in ps;
    ImageRoundTrip(imports, main, tab, strs);
    StringsBack(imports, main, tab, strs);
    assert imports + [main] == ps;
  }

  lemma EachRestored(ps: seq<Pack>, us: seq<Written>, rs: seq<Record>, tab: Table, strs: seq<Byte>)
    requires |ps| == |us| && AllHeld(ps, us, rs, tab, false) && AllNames(ps, tab) && AllMapsKnown(ps, tab)
    requires TableOk(tab, strs) && (forall p | p in ps :: PackFits(p)) && |strs| < U32
    ensures forall p | p in ps :: PackOk(p, tab, strs)
    ensures forall k {:trigger ps[k]} | 0 <= k < |us| :: Restored(ps[k], strs, us[k])
  {
    hide PackHeld, PackFits, NamesKnown, MapsKnown, TableOk, PackOk, Restored;
    forall k | 0 <= k < |us|
      ensures PackOk(ps[k], tab, strs) && Restored(ps[k], strs, us[k])
    {
      assert ps[k] in ps && PackHeld(ps[k], us[k], rs[k], tab, false);
      HeldRestored(ps[k], us[k], rs[k], tab, strs);
    }
  }

  lemma ImageHolds(imports: seq<Pack>, main: Pack, tab: Table, strs: seq<Byte>)
    ensures |strs| <= |ImageOf(imports, main, tab, strs)|
  {
    hide Header, PackDescs, PackParts, PackPart;
  }

  /** Build a program and load it: what the loader returns says what was written. */
  method BuildAndLoad(us: seq<Written>, places: (nat, nat, nat) -> Position)
    returns (failed: bool, image: seq<Byte>, r: Option<seq<Pack>>, ghost ps: seq<Pack>)
    requires us != [] && forall u | u in us :: Fits(u)
    ensures failed <==> AnyLong(us)
    ensures !failed && (forall p | p in ps :: PackFits(p)) && |image| < U32 ==>
              r == Some(ps) && |ps| == |us| && forall k {:trigger ps[k]} | 0 <= k < |us| ::
                Restored(ps[k], StringsOf(image), us[k])
  {
    hide AnyLong, PackFits, Images.Load, StringsOf, Restored, Fits, MapsSorted;
    var out;
    out, failed, ps := BuildImage(us, places);
    image := out[..];
    r := LoadProgram(image);
  }
  /** So a program that was built and loaded again, and whose source ends, ends the same when
      the interpreter runs the bytes in the image. */
  lemma ImageFollowsSource(image: seq<Byte>, p: Pack, u: Written, im: Image, blob: string, env: Env,
      globals: set<string>, w: World, fuel: nat) returns (n: nat)
    requires Images.Load(image) == Some([p]) && Restored(p, StringsOf(image), u)
    requires LoadedFrom(im, Read(p, StringsOf(image)), u.fs, blob, env) && Declares(env, u.fs) && WfPackage(u.fs, u.top)
    requires Unrollable(env, u.top, globals) && w.globals.Keys <= globals
      && !SourceEnding(env, u.top, w, fuel).StillRunning?
    ensures EndingSame(SourceEnding(env, u.top, w, fuel), EndingOf(Steps(im, Boot(blob, w), n)), BlockCounters(u.top))
  {
    hide Unrollable, SourceEnding, EndingOf, BlockCounters, Steps, Declares, LoadedFrom, WfPackage, Package.Faithful,
      Images.Load, StringsOf;
    n := BytesFollowSource(im, Read(p, StringsOf(image)), u.fs, u.top, blob, env, globals, w, fuel);
  }
}
