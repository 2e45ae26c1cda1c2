/** The `.mxb` image: what the compiler lays out and what the loader makes of it. */
module Images {
  import opened Bytes
  import opened Syntax
  import opened Machine
  import opened Encoding
  import opened DebugMaps
  import opened Blobs
  import opened Disassembler
  import opened Emitter

  datatype Func = Func(name: string, code: seq<Byte>, debug: seq<Loc>)

  datatype Pack = Pack(name: string, functions: seq<Func>, init: seq<Byte>, debug: seq<Loc>)

  const HeaderSize: nat := 132
  const PackDescSize: nat := 64
  const FuncDescSize: nat := 48
  const Version: nat := 8

  // ---- words ----

  /** 64-bit words, least significant byte first. */
  function EncWords(ws: seq<nat>): (r: seq<Byte>)
    ensures |r| == 8 * |ws|
  {
    if ws == [] then [] else LE(ws[0], 8) + EncWords(ws[1..])
  }

  predicate Wide(ws: seq<nat>) {
    forall w | w in ws :: w < U64
  }

  function ReadWords(s: seq<Byte>, p: nat, n: nat): (r: Read<seq<nat>>)
    ensures r.Got? ==> |r.value| == n && r.next == p + 8 * n <= |s|
    decreases n
  {
    if n == 0 then if p <= |s| then Got([], p) else Truncated
    else
      match ReadLE(s, p, 8)
      case Truncated => Truncated
      case Got(w, q) => (match ReadWords(s, q, n - 1) case Truncated => Truncated case Got(ws, q1) => Got([w] + ws, q1))
  }

  lemma {:induction false} WordsBack(s: seq<Byte>, p: nat, ws: seq<nat>)
    requires Carries(s, p, EncWords(ws)) && Wide(ws)
    ensures ReadWords(s, p, |ws|) == Got(ws, p + 8 * |ws|)
    decreases |ws|
  {
    hide Carries, LE;
    CarriesSlice(s, p, EncWords(ws));
    if ws == [] {
    } else {
      CarriesParts(s, p, LE(ws[0], 8), EncWords(ws[1..]));
      assert ws[0] in ws;
      ReadBackLong(s, p, ws[0]);
      assert forall w | w in ws[1..] :: w in ws;
      WordsBack(s, p + 8, ws[1..]);
      assert ws == [ws[0]] + ws[1..];
    }
  }

  // ---- debug maps ----

  function DebugSize(map_: seq<Loc>): nat {
    4 + 20 * |map_|
  }

  function DebugEntry(e: Loc, tab: Table): (r: seq<Byte>)
    ensures |r| == 20
  {
    LE(e.pc, 4) + (LE(e.line, 4) + (LE(e.column, 4) + EncText(e.file, tab)))
  }

  function DebugEntries(map_: seq<Loc>, tab: Table): (r: seq<Byte>)
    ensures |r| == 20 * |map_|
  {
    if map_ == [] then [] else DebugEntry(map_[0], tab) + DebugEntries(map_[1..], tab)
  }

  function DebugBytes(map_: seq<Loc>, tab: Table): (r: seq<Byte>)
    ensures |r| == DebugSize(map_)
  {
    LE(|map_|, 4) + DebugEntries(map_, tab)
  }

  predicate DebugKnown(map_: seq<Loc>, tab: Table) {
    forall e | e in map_ :: e.file in tab
  }

  predicate DebugFits(map_: seq<Loc>) {
    |map_| < U32 && forall e | e in map_ :: e.pc < U32 && e.line < U32 && e.column < U32 && TextFits(e.file)
  }

  function ParseEntries(blob: seq<Byte>, strs: seq<Byte>, p: nat, n: nat): Option<seq<Loc>>
    decreases n
  {
    if n == 0 then Some([])
    else if p + 20 > |blob| then None
    else
      var pc, line, column := FromLE(blob[p..p + 4]), FromLE(blob[p + 4..p + 8]), FromLE(blob[p + 8..p + 12]);
      match ReadText(blob, strs, p + 12)
      case Truncated => None
      case Got(file, q) =>
        (match ParseEntries(blob, strs, q, n - 1)
         case None => None
         case Some(rest) => Some([Loc(pc, line, column, file)] + rest))
  }

  function ParseDebug(blob: seq<Byte>, strs: seq<Byte>): Option<seq<Loc>> {
    if |blob| < 4 then Some([]) else ParseEntries(blob, strs, 4, FromLE(blob[..4]))
  }

  lemma EntryBack(blob: seq<Byte>, strs: seq<Byte>, p: nat, e: Loc, tab: Table)
    requires Carries(blob, p, DebugEntry(e, tab)) && e.file in tab && TextFits(e.file) && TableOk(tab, strs)
      && |strs| < U32
    requires e.pc < U32 && e.line < U32 && e.column < U32
    ensures p + 20 <= |blob| && FromLE(blob[p..p + 4]) == e.pc && FromLE(blob[p + 4..p + 8]) == e.line
    ensures FromLE(blob[p + 8..p + 12]) == e.column && ReadText(blob, strs, p + 12) == Got(e.file, p + 20)
  {
    var c, d := LE(e.column, 4) + EncText(e.file, tab), EncText(e.file, tab);
    CarriesParts(blob, p, LE(e.pc, 4), LE(e.line, 4) + c);
    CarriesParts(blob, p + 4, LE(e.line, 4), c);
    CarriesParts(blob, p + 8, LE(e.column, 4), d);
    ReadBackWord(blob, p, e.pc);
    ReadBackWord(blob, p + 4, e.line);
    ReadBackWord(blob, p + 8, e.column);
    ReadBackText(blob, strs, p + 12, e.file, tab);
  }

  lemma {:induction false} EntriesBack(blob: seq<Byte>, strs: seq<Byte>, p: nat, map_: seq<Loc>, tab: Table)
    requires Carries(blob, p, DebugEntries(map_, tab)) && DebugKnown(map_, tab) && DebugFits(map_)
    requires TableOk(tab, strs) && |strs| < U32
    ensures ParseEntries(blob, strs, p, |map_|) == Some(map_)
    decreases |map_|
  {
    if map_ != [] {
      CarriesParts(blob, p, DebugEntry(map_[0], tab), DebugEntries(map_[1..], tab));
      EntryBack(blob, strs, p, map_[0], tab);
      EntriesBack(blob, strs, p + 20, map_[1..], tab);
      assert map_ == [map_[0]] + map_[1..];
    }
  }

  /** A debug map read back, whatever it refers to. */
  lemma DebugBack(map_: seq<Loc>, tab: Table, strs: seq<Byte>)
    requires DebugKnown(map_, tab) && DebugFits(map_) && TableOk(tab, strs) && |strs| < U32
    ensures ParseDebug(DebugBytes(map_, tab), strs) == Some(map_)
  {
    var blob := DebugBytes(map_, tab);
    CarriesSlice(blob, 0, blob);
    assert blob[0..|blob|] == blob;
    CarriesParts(blob, 0, LE(|map_|, 4), DebugEntries(map_, tab));
    Word32(|map_|);
    assert blob[..4] == LE(|map_|, 4);
    EntriesBack(blob, strs, 4, map_, tab);
  }

  // ---- the image ----

  function OffsetOf(name: string, tab: Table): nat {
    if name in tab then tab[name] else 0
  }

  function FuncSize(f: Func): nat {
    |f.code| + DebugSize(f.debug)
  }

  function FuncsSize(fs: seq<Func>): nat {
    if fs == [] then 0 else FuncSize(fs[0]) + FuncsSize(fs[1..])
  }

  /** The descriptor of a function whose code is at `at`. */
  function FuncWords(f: Func, at: nat, tab: Table): (r: seq<nat>)
    ensures |r| == 6
  {
    [OffsetOf(f.name, tab), |f.name|, at, |f.code|, at + |f.code|, DebugSize(f.debug)]
  }

  function FuncDescs(fs: seq<Func>, at: nat, tab: Table): (r: seq<Byte>)
    ensures |r| == FuncDescSize * |fs|
  {
    if fs == [] then [] else EncWords(FuncWords(fs[0], at, tab)) + FuncDescs(fs[1..], at + FuncSize(fs[0]), tab)
  }

  function FuncPart(f: Func, tab: Table): (r: seq<Byte>)
    ensures |r| == FuncSize(f)
  {
    f.code + DebugBytes(f.debug, tab)
  }

  function FuncParts(fs: seq<Func>, tab: Table): (r: seq<Byte>)
    ensures |r| == FuncsSize(fs)
  {
    if fs == [] then [] else FuncPart(fs[0], tab) + FuncParts(fs[1..], tab)
  }

  function PackSize(p: Pack): nat {
    FuncDescSize * |p.functions| + FuncsSize(p.functions) + |p.init| + DebugSize(p.debug)
  }

  /** Where the initialiser of a package laid out at `at` stands. */
  function InitAt(p: Pack, at: nat): nat {
    at + FuncDescSize * |p.functions| + FuncsSize(p.functions)
  }

  function PackPart(p: Pack, at: nat, tab: Table): (r: seq<Byte>)
    ensures |r| == PackSize(p)
  {
    FuncDescs(p.functions, at + FuncDescSize * |p.functions|, tab)
    + (FuncParts(p.functions, tab) + (p.init + DebugBytes(p.debug, tab)))
  }

  function PacksSize(ps: seq<Pack>): nat {
    if ps == [] then 0 else PackSize(ps[0]) + PacksSize(ps[1..])
  }

  function PackParts(ps: seq<Pack>, at: nat, tab: Table): (r: seq<Byte>)
    ensures |r| == PacksSize(ps)
  {
    if ps == [] then [] else PackPart(ps[0], at, tab) + PackParts(ps[1..], at + PackSize(ps[0]), tab)
  }

  function PackWords(p: Pack, at: nat, tab: Table): (r: seq<nat>)
    ensures |r| == 8
  {
    [OffsetOf(p.name, tab), |p.name|, InitAt(p, at), |p.init|, at, |p.functions|, InitAt(p, at) + |p.init|,
      DebugSize(p.debug)]
  }

  function PackDescs(ps: seq<Pack>, at: nat, tab: Table): (r: seq<Byte>)
    ensures |r| == PackDescSize * |ps|
  {
    if ps == [] then [] else EncWords(PackWords(ps[0], at, tab)) + PackDescs(ps[1..], at + PackSize(ps[0]), tab)
  }

  function HeaderWords(main: Pack, at: nat, imports: nat, strings: nat, length: nat, tab: Table): (r: seq<nat>)
    ensures |r| == 8
  {
    [OffsetOf(main.name, tab), |main.name|, HeaderSize, imports, InitAt(main, at), |main.init|, strings, length]
  }

  /** Where the packages start: behind the header and the descriptors of the imports. */
  function PacksAt(imports: seq<Pack>): nat {
    HeaderSize + PackDescSize * |imports|
  }

  function MainAt(imports: seq<Pack>): nat {
    PacksAt(imports) + PacksSize(imports)
  }

  function StringsAt(imports: seq<Pack>, main: Pack): nat {
    MainAt(imports) + PackSize(main)
  }

  function Header(imports: seq<Pack>, main: Pack, tab: Table, length: nat): (r: seq<Byte>)
    ensures |r| == HeaderSize
  {
    [77, 88] + (LE(Version, 2)
    + (EncWords(HeaderWords(main, MainAt(imports), |imports|, StringsAt(imports, main), length, tab))
    + EncWords(PackWords(main, MainAt(imports), tab))))
  }

  /** The image of some imports and an entry package, with the finished string table. */
  function ImageOf(imports: seq<Pack>, main: Pack, tab: Table, strs: seq<Byte>): (r: seq<Byte>)
    ensures |r| == StringsAt(imports, main) + |strs|
  {
    Header(imports, main, tab, |strs|)
    + (PackDescs(imports, PacksAt(imports), tab)
    + (PackParts(imports, PacksAt(imports), tab)
    + (PackPart(main, MainAt(imports), tab) + strs)))
  }

  // ---- loading ----

  predicate InRange(s: seq<Byte>, offset: nat, length: nat) {
    offset <= |s| && length <= |s| - offset
  }

  function Slice(s: seq<Byte>, offset: nat, length: nat): Option<seq<Byte>> {
    if InRange(s, offset, length) then Some(s[offset..offset + length]) else None
  }

  function NameAt(strs: seq<Byte>, offset: nat, length: nat): Option<string> {
    if offset < U32 && length < U32 && InRange(strs, offset, length) then Some(ToText(strs[offset..offset + length]))
      else None
  }

  /** Behind `n` references to texts. */
  function SkipTexts(code: seq<Byte>, strs: seq<Byte>, p: nat, n: nat): (r: Option<nat>)
    ensures r.Some? ==> r.value == p + 8 * n && (n > 0 ==> r.value <= |code|)
    decreases n
  {
    if n == 0 then Some(p)
    else match ReadText(code, strs, p) case Truncated => None case Got(_, q) => SkipTexts(code, strs, q, n - 1)
  }

  /** Behind an instruction for pipes, channels, locks, buffers, SIMD lanes or declarations. No
      code here contains any, but an image may. */
  function SkipForeign(code: seq<Byte>, strs: seq<Byte>, pc: nat): Option<nat>
    requires pc < |code|
  {
    var op := code[pc];
    if op == 47 then Some(pc + 1)
    else if op == 53 || op == 54 then
      match ReadText(code, strs, pc + 1)
      case Truncated => None
      case Got(_, q) =>
        (match ReadLE(code, q, 4) case Truncated => None case Got(n, q1) => SkipTexts(code, strs, q1, n))
    else if op == 44 || 49 <= op <= 57 then
      match ReadText(code, strs, pc + 1) case Truncated => None case Got(_, q) => Some(q)
    else None
  }

  function Behind(code: seq<Byte>, strs: seq<Byte>, pc: nat): Option<nat>
    requires pc < |code|
  {
    match Decode(code, strs, pc) case Instruction(_, next) => Some(next) case _ => SkipForeign(code, strs, pc)
  }

  /** From `pc` one instruction follows the other to the end of a blob. */
  predicate Walk(code: seq<Byte>, strs: seq<Byte>, pc: nat)
    decreases |code| - pc
  {
    pc == |code| || (pc < |code| && var next := Behind(code, strs, pc);
                                    next.Some? && pc < next.value <= |code| && Walk(code, strs, next.value))
  }

  /** Compiled code passes the check. */
  lemma {:induction false} CoveredWalks(code: seq<Byte>, strs: seq<Byte>, list: seq<Instr>, k: nat)
    requires Disassembler.Covers(View(code, strs), list) && k <= |list|
    ensures Walk(code, strs, Offset(list, k))
    decreases |list| - k
  {
    hide Decode, SkipForeign;
    if k < |list| {
      CoveredStep(code, strs, list, k);
      CoveredWalks(code, strs, list, k + 1);
    }
  }

  lemma CoveredStep(code: seq<Byte>, strs: seq<Byte>, list: seq<Instr>, k: nat)
    requires Disassembler.Covers(View(code, strs), list) && k < |list|
    ensures Offset(list, k) < Offset(list, k + 1) <= |code|
      && Decode(code, strs, Offset(list, k)) == Instruction(list[k], Offset(list, k + 1))
  {
    hide Decode;
    assert ReadAt(View(code, strs), list, k);
    OffsetGrows(list, k, k + 1);
    OffsetGrows(list, k + 1, |list|);
  }

  /** A code blob the decoder accepts. */
  function CodeAt(s: seq<Byte>, strs: seq<Byte>, offset: nat, length: nat): Option<seq<Byte>> {
    match Slice(s, offset, length)
    case None => None
    case Some(code) => if Walk(code, strs, 0) then Some(code) else None
  }

  function DebugAt(s: seq<Byte>, strs: seq<Byte>, offset: nat, length: nat): Option<seq<Loc>> {
    if length == 0 then Some([])
    else match Slice(s, offset, length) case None => None case Some(blob) => ParseDebug(blob, strs)
  }

  function LoadFunc(s: seq<Byte>, strs: seq<Byte>, w: seq<nat>): Option<Func>
    requires |w| == 6
  {
    match NameAt(strs, w[0], w[1])
    case None => None
    case Some(name) =>
      match CodeAt(s, strs, w[2], w[3])
      case None => None
      case Some(code) => (match DebugAt(s, strs, w[4],
        w[5]) case None => None case Some(d) => Some(Func(name, code, d)))
  }

  function LoadFuncs(s: seq<Byte>, strs: seq<Byte>, at: nat, n: nat): Option<seq<Func>>
    decreases n
  {
    if n == 0 then Some([])
    else
      match ReadWords(s, at, 6)
      case Truncated => None
      case Got(w, next) =>
        match LoadFunc(s, strs, w)
        case None => None
        case Some(f) => (match LoadFuncs(s, strs, next, n - 1) case None => None case Some(fs) => Some([f] + fs))
  }

  function LoadPack(s: seq<Byte>, strs: seq<Byte>, w: seq<nat>): Option<Pack>
    requires |w| == 8
  {
    match NameAt(strs, w[0], w[1])
    case None => None
    case Some(name) =>
      if !InRange(s, w[4], FuncDescSize * w[5]) then None
      else
        match LoadFuncs(s, strs, w[4], w[5])
        case None => None
        case Some(fs) =>
          match CodeAt(s, strs, w[2], w[3])
          case None => None
          case Some(init) => (match DebugAt(s, strs, w[6],
            w[7]) case None => None case Some(d) => Some(Pack(name, fs, init, d)))
  }

  function LoadPacks(s: seq<Byte>, strs: seq<Byte>, at: nat, n: nat): Option<seq<Pack>>
    decreases n
  {
    if n == 0 then Some([])
    else
      match ReadWords(s, at, 8)
      case Truncated => None
      case Got(w, next) =>
        match LoadPack(s, strs, w)
        case None => None
        case Some(p) => (match LoadPacks(s, strs, next, n - 1) case None => None case Some(ps) => Some([p] + ps))
  }

  /** What the header and the entry package's descriptor must agree on. */
  predicate EntryAgrees(h: seq<nat>, e: seq<nat>)
    requires |h| == 8 && |e| == 8
  {
    h[4] == e[2] && h[5] == e[3] && h[0] == e[0] && h[1] == e[1]
  }

  /** All packages of an image in order, the entry package last, or none if anything about
      the image is not as it should be. */
  function Load(s: seq<Byte>): Option<seq<Pack>> {
    if |s| < HeaderSize || s[..2] != [77, 88] || FromLE(s[2..4]) != Version then None
    else
      match ReadWords(s, 4, 8)
      case Truncated => None
      case Got(h, p) =>
        match ReadWords(s, p, 8)
        case Truncated => None
        case Got(e, _) =>
          match Slice(s, h[6], h[7])
          case None => None
          case Some(strs) =>
            if NameAt(strs, h[0], h[1]).None? || !InRange(s, h[2], PackDescSize * h[3]) || !EntryAgrees(h, e) then None
            else
              match LoadPacks(s, strs, h[2], h[3])
              case None => None
              case Some(ps) => (match LoadPack(s, strs, e) case None => None case Some(main) => Some(ps + [main]))
  }

  // ---- round trip ----

  /** Everything a package mentions is in the string table, and its code decodes. */
  predicate FuncOk(f: Func, tab: Table, strs: seq<Byte>) {
    && TextFits(f.name) && f.name in tab && Walk(f.code, strs, 0) && DebugKnown(f.debug, tab)
      && DebugFits(f.debug)
  }

  predicate PackOk(p: Pack, tab: Table, strs: seq<Byte>) {
    && TextFits(p.name) && p.name in tab && Walk(p.init, strs, 0) && DebugKnown(p.debug, tab)
      && DebugFits(p.debug)
    && forall f | f in p.functions :: FuncOk(f, tab, strs)
  }

  lemma NameBack(name: string, tab: Table, strs: seq<Byte>)
    requires TextFits(name) && name in tab && TableOk(tab, strs) && |strs| < U32
    ensures NameAt(strs, OffsetOf(name, tab), |name|) == Some(name)
  {
    assert Stored(name, tab, strs);
    TextRoundTrip(name);
  }

  lemma PartBack(s: seq<Byte>, at: nat, part: seq<Byte>)
    requires Carries(s, at, part)
    ensures Slice(s, at, |part|) == Some(part)
  {
    CarriesSlice(s, at, part);
  }

  lemma DebugPartBack(s: seq<Byte>, at: nat, map_: seq<Loc>, tab: Table, strs: seq<Byte>)
    requires Carries(s, at, DebugBytes(map_, tab)) && DebugKnown(map_, tab) && DebugFits(map_) && TableOk(tab, strs)
      && |strs| < U32
    ensures DebugAt(s, strs, at, DebugSize(map_)) == Some(map_)
  {
    PartBack(s, at, DebugBytes(map_, tab));
    DebugBack(map_, tab, strs);
  }

  lemma FuncBack(s: seq<Byte>, at: nat, f: Func, tab: Table, strs: seq<Byte>)
    requires Carries(s, at, FuncPart(f, tab)) && FuncOk(f, tab, strs) && TableOk(tab, strs) && |strs| < U32
    ensures LoadFunc(s, strs, FuncWords(f, at, tab)) == Some(f)
  {
    hide Carries, DebugBytes, DebugAt, Walk, NameAt, Slice;
    NameBack(f.name, tab, strs);
    CarriesParts(s, at, f.code, DebugBytes(f.debug, tab));
    PartBack(s, at, f.code);
    DebugPartBack(s, at + |f.code|, f.debug, tab, strs);
  }

  /** A function's descriptor fits its words if the image is not too long. */
  lemma FuncWide(f: Func, at: nat, tab: Table, strs: seq<Byte>)
    requires FuncOk(f, tab, strs) && TableOk(tab, strs) && |strs| < U32 && at + FuncSize(f) < U64
    ensures Wide(FuncWords(f, at, tab))
  {
    assert Stored(f.name, tab, strs);
  }

  lemma {:induction false} FuncsBack(s: seq<Byte>, desc: nat, at: nat, fs: seq<Func>, tab: Table, strs: seq<Byte>)
    requires Carries(s, desc, FuncDescs(fs, at, tab)) && Carries(s, at, FuncParts(fs, tab)) && |s| < U64
    requires TableOk(tab, strs) && |strs| < U32 && forall f | f in fs :: FuncOk(f, tab, strs)
    ensures LoadFuncs(s, strs, desc, |fs|) == Some(fs)
    decreases |fs|
  {
    hide Carries, LoadFunc, EncWords, FuncWords, FuncPart, ReadWords, FuncSize, FuncOk, Wide;
    if fs != [] {
      var f, rest := fs[0], fs[1..];
      assert f in fs;
      CarriesParts(s, desc, EncWords(FuncWords(f, at, tab)), FuncDescs(rest, at + FuncSize(f), tab));
      CarriesParts(s, at, FuncPart(f, tab), FuncParts(rest, tab));
      CarriesSlice(s, at, FuncPart(f, tab));
      FuncWide(f, at, tab, strs);
      WordsBack(s, desc, FuncWords(f, at, tab));
      FuncBack(s, at, f, tab, strs);
      FuncsBack(s, desc + FuncDescSize, at + FuncSize(f), rest, tab, strs);
      assert fs == [f] + rest;
    }
  }

  lemma PackRange(s: seq<Byte>, at: nat, p: Pack, tab: Table)
    requires Carries(s, at, PackPart(p, at, tab))
    ensures at + PackSize(p) <= |s| && InRange(s, at, FuncDescSize * |p.functions|)
  {
    CarriesSlice(s, at, PackPart(p, at, tab));
  }

  lemma PackBack(s: seq<Byte>, at: nat, p: Pack, tab: Table, strs: seq<Byte>)
    requires Carries(s, at, PackPart(p, at, tab)) && PackOk(p, tab, strs) && TableOk(tab, strs) && |strs| < U32
      && |s| < U64
    ensures LoadPack(s, strs, PackWords(p, at, tab)) == Some(p)
    ensures Wide(PackWords(p, at, tab))
  {
    hide Carries, LoadFuncs, FuncDescs, FuncParts, FuncsSize, DebugBytes, DebugAt, Walk, NameAt, Slice, FuncOk;
    var first := at + FuncDescSize * |p.functions|;
    var descs, parts, tail := FuncDescs(p.functions, first, tab), FuncParts(p.functions, tab),
      p.init + DebugBytes(p.debug, tab);
    CarriesSlice(s, at, PackPart(p, at, tab));
    CarriesParts(s, at, descs, parts + tail);
    CarriesParts(s, first, parts, tail);
    CarriesParts(s, InitAt(p, at), p.init, DebugBytes(p.debug, tab));
    FuncsBack(s, at, first, p.functions, tab, strs);
    NameBack(p.name, tab, strs);
    assert Stored(p.name, tab, strs);
    PartBack(s, InitAt(p, at), p.init);
    DebugPartBack(s, InitAt(p, at) + |p.init|, p.debug, tab, strs);
    PackRange(s, at, p, tab);
  }

  lemma {:induction false} PacksBack(s: seq<Byte>, desc: nat, at: nat, ps: seq<Pack>, tab: Table, strs: seq<Byte>)
    requires Carries(s, desc, PackDescs(ps, at, tab)) && Carries(s, at, PackParts(ps, at, tab)) && |s| < U64
    requires TableOk(tab, strs) && |strs| < U32 && forall p | p in ps :: PackOk(p, tab, strs)
    ensures LoadPacks(s, strs, desc, |ps|) == Some(ps)
    decreases |ps|
  {
    hide Carries, LoadPack, EncWords, PackWords, PackPart, ReadWords, PackSize, PackOk, Wide;
    if ps != [] {
      var p, rest := ps[0], ps[1..];
      assert p in ps;
      CarriesParts(s, desc, EncWords(PackWords(p, at, tab)), PackDescs(rest, at + PackSize(p), tab));
      CarriesParts(s, at, PackPart(p, at, tab), PackParts(rest, at + PackSize(p), tab));
      PackBack(s, at, p, tab, strs);
      WordsBack(s, desc, PackWords(p, at, tab));
      PacksBack(s, desc + PackDescSize, at + PackSize(p), rest, tab, strs);
      assert ps == [p] + rest;
    }
  }

  /** Where the sections of an image are. */
  lemma Sections(imports: seq<Pack>, main: Pack, tab: Table, strs: seq<Byte>)
    ensures
      var s := ImageOf(imports, main, tab, strs);
      && Carries(s, 0, Header(imports, main, tab, |strs|))
      && Carries(s, HeaderSize, PackDescs(imports, PacksAt(imports), tab))
      && Carries(s, PacksAt(imports), PackParts(imports, PacksAt(imports), tab))
      && Carries(s, MainAt(imports), PackPart(main, MainAt(imports), tab))
      && Carries(s, StringsAt(imports, main), strs)
  {
    hide Carries, Header, PackDescs, PackParts, PackPart, PacksSize, PackSize;
    var s := ImageOf(imports, main, tab, strs);
    var head, descs := Header(imports, main, tab, |strs|), PackDescs(imports, PacksAt(imports), tab);
    var parts, last := PackParts(imports, PacksAt(imports), tab), PackPart(main, MainAt(imports), tab);
    CarriesSlice(s, 0, s);
    assert s[0..|s|] == s;
    CarriesParts(s, 0, head, descs + (parts + (last + strs)));
    CarriesParts(s, HeaderSize, descs, parts + (last + strs));
    CarriesParts(s, PacksAt(imports), parts, last + strs);
    CarriesParts(s, MainAt(imports), last, strs);
  }

  lemma HeaderSections(s: seq<Byte>, imports: seq<Pack>, main: Pack, tab: Table, length: nat)
    requires Carries(s, 0, Header(imports, main, tab, length))
    ensures Carries(s, 0, [77, 88]) && Carries(s, 2, LE(Version, 2))
    ensures Carries(s, 4, EncWords(HeaderWords(main, MainAt(imports), |imports|, StringsAt(imports, main), length,
      tab)))
    ensures Carries(s, 68, EncWords(PackWords(main, MainAt(imports), tab)))
  {
    hide Carries, EncWords, HeaderWords, PackWords;
    var h := HeaderWords(main, MainAt(imports), |imports|, StringsAt(imports, main), length, tab);
    var e := PackWords(main, MainAt(imports), tab);
    CarriesParts(s, 0, [77, 88], LE(Version, 2) + (EncWords(h) + EncWords(e)));
    CarriesParts(s, 2, LE(Version, 2), EncWords(h) + EncWords(e));
    CarriesParts(s, 4, EncWords(h), EncWords(e));
  }

  lemma HeaderBack(s: seq<Byte>, imports: seq<Pack>, main: Pack, tab: Table, length: nat)
    requires Carries(s, 0, Header(imports, main, tab, length))
    requires Wide(HeaderWords(main, MainAt(imports), |imports|, StringsAt(imports, main), length, tab))
    requires Wide(PackWords(main, MainAt(imports), tab))
    ensures |s| >= HeaderSize && s[..2] == [77, 88] && FromLE(s[2..4]) == Version
    ensures ReadWords(s, 4, 8) == Got(HeaderWords(main, MainAt(imports), |imports|, StringsAt(imports, main), length,
      tab), 68)
    ensures ReadWords(s, 68, 8) == Got(PackWords(main, MainAt(imports), tab), 132)
  {
    hide Carries, EncWords, ReadWords, HeaderWords, PackWords, Wide;
    var h := HeaderWords(main, MainAt(imports), |imports|, StringsAt(imports, main), length, tab);
    var e := PackWords(main, MainAt(imports), tab);
    CarriesSlice(s, 0, Header(imports, main, tab, length));
    HeaderSections(s, imports, main, tab, length);
    CarriesSlice(s, 0, [77, 88]);
    CarriesSlice(s, 2, LE(Version, 2));
    assert Pow256(2) == 0x1_0000;
    LERoundTrip(Version, 2);
    WordsBack(s, 4, h);
    WordsBack(s, 68, e);
    assert s[..2] == s[0..2];
  }

  /** The header of an image that is not too long passes the loader's checks. */
  lemma HeaderOk(imports: seq<Pack>, main: Pack, tab: Table, strs: seq<Byte>)
    requires TableOk(tab, strs) && |strs| < U32 && StringsAt(imports, main) + |strs| < U64 && PackOk(main, tab, strs)
    ensures
      var h := HeaderWords(main, MainAt(imports), |imports|, StringsAt(imports, main), |strs|, tab);
      && Wide(h) && EntryAgrees(h, PackWords(main, MainAt(imports), tab)) && NameAt(strs, h[0], h[1]) == Some(main.name)
      && h[2] == HeaderSize && h[3] == |imports| && h[6] == StringsAt(imports, main) && h[7] == |strs|
      && h[2] + PackDescSize * h[3] <= StringsAt(imports, main)
  {
    assert Stored(main.name, tab, strs);
    NameBack(main.name, tab, strs);
  }

  /** Loading inverts the layout: the same packages, names, code and debug maps, in the
      same order. */
  lemma ImageRoundTrip(imports: seq<Pack>, main: Pack, tab: Table, strs: seq<Byte>)
    requires TableOk(tab, strs) && |strs| < U32 && |ImageOf(imports, main, tab, strs)| < U64
    requires PackOk(main, tab, strs) && forall p | p in imports :: PackOk(p, tab, strs)
    ensures Load(ImageOf(imports, main, tab, strs)) == Some(imports + [main])
  {
    hide Carries, Header, PackDescs, PackParts, PackPart, LoadPacks, LoadPack, ReadWords, ImageOf, NameAt, Slice,
      PackWords, PackOk;
    var s := ImageOf(imports, main, tab, strs);
    Sections(imports, main, tab, strs);
    HeaderOk(imports, main, tab, strs);
    PackBack(s, MainAt(imports), main, tab, strs);
    HeaderBack(s, imports, main, tab, |strs|);
    PartBack(s, StringsAt(imports, main), strs);
    PacksBack(s, HeaderSize, PacksAt(imports), imports, tab, strs);
  }

  /** The string table of an image, from the header. */
  function StringsOf(s: seq<Byte>): seq<Byte> {
    match ReadWords(s, 4, 8)
    case Truncated => []
    case Got(h, _) => (match Slice(s, h[6], h[7]) case None => [] case Some(strs) => strs)
  }

  lemma StringsBack(imports: seq<Pack>, main: Pack, tab: Table, strs: seq<Byte>)
    requires TableOk(tab, strs) && |strs| < U32 && |ImageOf(imports, main, tab, strs)| < U64 && PackOk(main, tab, strs)
    ensures StringsOf(ImageOf(imports, main, tab, strs)) == strs
  {
    hide Carries, Header, PackDescs, PackParts, PackPart, ReadWords, ImageOf, NameAt, Slice, PackWords, PackOk;
    var s := ImageOf(imports, main, tab, strs);
    Sections(imports, main, tab, strs);
    HeaderOk(imports, main, tab, strs);
    PackBack(s, MainAt(imports), main, tab, strs);
    HeaderBack(s, imports, main, tab, |strs|);
    PartBack(s, StringsAt(imports, main), strs);
  }
}
