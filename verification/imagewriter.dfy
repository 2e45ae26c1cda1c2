/** Laying an image out in place: offsets first, then every section written where it goes. */
module ImageWriter {
  import opened Bytes
  import opened Syntax
  import opened Encoding
  import opened DebugMaps
  import opened Emitter
  import opened Images

  // ---- the table grows, references stay ----

  lemma EntryStill(e: Loc, tab: Table, tab1: Table)
    requires e.file in tab && Grows(tab, tab1)
    ensures e.file in tab1 && DebugEntry(e, tab1) == DebugEntry(e, tab)
  {
    TextStill(e.file, tab, tab1);
  }

  lemma {:induction false} EntriesStill(map_: seq<Loc>, tab: Table, tab1: Table)
    requires DebugKnown(map_, tab) && Grows(tab, tab1)
    ensures DebugKnown(map_, tab1) && DebugEntries(map_, tab1) == DebugEntries(map_, tab)
  {
    if map_ != [] {
      EntryStill(map_[0], tab, tab1);
      EntriesStill(map_[1..], tab, tab1);
    }
  }

  lemma {:induction false} EntriesSnoc(a: seq<Loc>, e: Loc, tab: Table)
    ensures DebugEntries(a + [e], tab) == DebugEntries(a, tab) + DebugEntry(e, tab)
  {
    hide DebugEntry;
    if a == [] {
      assert a + [e] == [e] && [e][1..] == [];
    } else {
      EntriesSnoc(a[1..], e, tab);
      assert (a + [e])[1..] == a[1..] + [e];
    }
  }

  lemma EntryGlue(out: seq<Byte>, e: Loc, tab: Table)
    ensures out + LE(e.pc, 4) + LE(e.line, 4) + LE(e.column, 4) + EncText(e.file, tab) == out + DebugEntry(e, tab)
  {
  }

  /** The bytes of a debug map; file names are interned as they come. */
  method SerializeDebugMap(map_: seq<Loc>, strings: StringTable) returns (bytes: seq<Byte>)
    requires strings.Valid()
    modifies strings
    ensures strings.Valid() && Grows(old(strings.interned), strings.interned)
    ensures DebugKnown(map_, strings.interned) && bytes == DebugBytes(map_, strings.interned)
  {
    hide DebugEntry, DebugEntries, EncText, LE;
    var out := new CodeBuilder();
    out.U32(|map_|);
    assert out.code == LE(|map_|, 4);
    NoEntries(strings.interned);
    for i := 0 to |map_|
      invariant strings.Valid() && Grows(old(strings.interned), strings.interned)
      invariant DebugKnown(map_[..i], strings.interned)
      invariant out.code == LE(|map_|, 4) + DebugEntries(map_[..i], strings.interned)
    {
      ghost var e, tab, before := map_[i], strings.interned, out.code;
      out.U32(map_[i].pc);
      out.U32(map_[i].line);
      out.U32(map_[i].column);
      var file := strings.Intern(map_[i].file);
      out.Str(file, |map_[i].file|);
      StrIs(map_[i].file, file, strings.interned);
      EntryGlue(before, e, strings.interned);
      EntriesStill(map_[..i], tab, strings.interned);
      EntriesSnoc(map_[..i], e, strings.interned);
      assert map_[..i + 1] == map_[..i] + [e];
      Joined(LE(|map_|, 4), DebugEntries(map_[..i], strings.interned), DebugEntry(e, strings.interned));
    }
    assert map_[..|map_|] == map_;
    bytes := out.code;
  }

  lemma NoEntries(tab: Table)
    ensures DebugEntries([], tab) == []
  {
  }

  lemma StrIs(text: string, offset: nat, tab: Table)
    requires text in tab && offset == tab[text]
    ensures EncText(text, tab) == LE(offset, 4) + LE(|text|, 4)
  {
  }

  lemma Joined(a: seq<Byte>, b: seq<Byte>, c: seq<Byte>)
    ensures a + b + c == a + (b + c)
  {
  }

  // ---- places ----

  datatype FuncPlace = FuncPlace(at: nat, debug: seq<Byte>)

  datatype Place = Place(at: nat, functions: seq<FuncPlace>, initAt: nat, debug: seq<Byte>)

  ghost predicate FuncPlaced(f: Func, q: FuncPlace, at: nat, tab: Table) {
    q.at == at && DebugKnown(f.debug, tab) && q.debug == DebugBytes(f.debug, tab)
  }

  ghost predicate FuncsPlaced(fs: seq<Func>, qs: seq<FuncPlace>, at: nat, tab: Table)
    decreases |fs|
  {
    |fs| == |qs| &&
    (fs == [] || (FuncPlaced(fs[0], qs[0], at, tab) && FuncsPlaced(fs[1..], qs[1..], at + FuncSize(fs[0]), tab)))
  }

  ghost predicate PackPlaced(p: Pack, q: Place, at: nat, tab: Table) {
    && q.at == at && FuncsPlaced(p.functions, q.functions, at + FuncDescSize * |p.functions|, tab)
    && q.initAt == InitAt(p, at) && DebugKnown(p.debug, tab) && q.debug == DebugBytes(p.debug, tab)
  }

  ghost predicate PacksPlaced(ps: seq<Pack>, qs: seq<Place>, at: nat, tab: Table)
    decreases |ps|
  {
    |ps| == |qs| &&
    (ps == [] || (PackPlaced(ps[0], qs[0], at, tab) && PacksPlaced(ps[1..], qs[1..], at + PackSize(ps[0]), tab)))
  }

  lemma DebugStill(map_: seq<Loc>, tab: Table, tab1: Table)
    requires DebugKnown(map_, tab) && Grows(tab, tab1)
    ensures DebugKnown(map_, tab1) && DebugBytes(map_, tab1) == DebugBytes(map_, tab)
  {
    EntriesStill(map_, tab, tab1);
  }

  lemma {:induction false} FuncsStill(fs: seq<Func>, qs: seq<FuncPlace>, at: nat, tab: Table, tab1: Table)
    requires FuncsPlaced(fs, qs, at, tab) && Grows(tab, tab1)
    ensures FuncsPlaced(fs, qs, at, tab1)
    decreases |fs|
  {
    if fs != [] {
      DebugStill(fs[0].debug, tab, tab1);
      FuncsStill(fs[1..], qs[1..], at + FuncSize(fs[0]), tab, tab1);
    }
  }

  lemma {:induction false} PacksStill(ps: seq<Pack>, qs: seq<Place>, at: nat, tab: Table, tab1: Table)
    requires PacksPlaced(ps, qs, at, tab) && Grows(tab, tab1)
    ensures PacksPlaced(ps, qs, at, tab1)
    decreases |ps|
  {
    if ps != [] {
      PackStill(ps[0], qs[0], at, tab, tab1);
      PacksStill(ps[1..], qs[1..], at + PackSize(ps[0]), tab, tab1);
    }
  }

  lemma PackStill(p: Pack, q: Place, at: nat, tab: Table, tab1: Table)
    requires PackPlaced(p, q, at, tab) && Grows(tab, tab1)
    ensures PackPlaced(p, q, at, tab1)
  {
    FuncsStill(p.functions, q.functions, at + FuncDescSize * |p.functions|, tab, tab1);
    DebugStill(p.debug, tab, tab1);
  }

  lemma {:induction false} FuncsPlacedSnoc(fs: seq<Func>, qs: seq<FuncPlace>, f: Func, q: FuncPlace, at: nat,
      tab: Table)
    requires FuncsPlaced(fs, qs, at, tab) && FuncPlaced(f, q, at + FuncsSize(fs), tab)
    ensures FuncsPlaced(fs + [f], qs + [q], at, tab) && FuncsSize(fs + [f]) == FuncsSize(fs) + FuncSize(f)
    decreases |fs|
  {
    hide FuncPlaced, FuncSize;
    if fs == [] {
      assert fs + [f] == [f] && qs + [q] == [q] && [f][1..] == [] && [q][1..] == [];
    } else {
      FuncsPlacedSnoc(fs[1..], qs[1..], f, q, at + FuncSize(fs[0]), tab);
      assert (fs + [f])[1..] == fs[1..] + [f] && (qs + [q])[1..] == qs[1..] + [q];
    }
  }

  lemma {:induction false} PacksPlacedSnoc(ps: seq<Pack>, qs: seq<Place>, p: Pack, q: Place, at: nat, tab: Table)
    requires PacksPlaced(ps, qs, at, tab) && PackPlaced(p, q, at + PacksSize(ps), tab)
    ensures PacksPlaced(ps + [p], qs + [q], at, tab) && PacksSize(ps + [p]) == PacksSize(ps) + PackSize(p)
    decreases |ps|
  {
    hide PackPlaced, PackSize;
    if ps == [] {
      assert ps + [p] == [p] && qs + [q] == [q] && [p][1..] == [] && [q][1..] == [];
    } else {
      PacksPlacedSnoc(ps[1..], qs[1..], p, q, at + PackSize(ps[0]), tab);
      assert (ps + [p])[1..] == ps[1..] + [p] && (qs + [q])[1..] == qs[1..] + [q];
    }
  }

  /** Assign offsets to the code and debug maps of a package laid out at `at`. */
  method PlacePack(p: Pack, at: nat, strings: StringTable) returns (q: Place)
    requires strings.Valid()
    modifies strings
    ensures strings.Valid() && Grows(old(strings.interned), strings.interned)
    ensures PackPlaced(p, q, at, strings.interned)
  {
    hide FuncPlaced, DebugBytes, Grows;
    GrowsSelf(strings.interned);
    ghost var tab0 := strings.interned;
    var first, cursor := at + FuncDescSize * |p.functions|, at + FuncDescSize * |p.functions|;
    var qs := [];
    for i := 0 to |p.functions|
      invariant strings.Valid() && Grows(tab0, strings.interned)
      invariant FuncsPlaced(p.functions[..i], qs, first, strings.interned)
        && cursor == first + FuncsSize(p.functions[..i])
    {
      ghost var tab := strings.interned;
      var debug := SerializeDebugMap(p.functions[i].debug, strings);
      GrowsTwice(tab0, tab, strings.interned);
      var f := FuncPlace(cursor, debug);
      IsPlaced(p.functions[i], f, cursor, strings.interned);
      FuncsStill(p.functions[..i], qs, first, tab, strings.interned);
      FuncsPlacedSnoc(p.functions[..i], qs, p.functions[i], f, first, strings.interned);
      assert p.functions[..i + 1] == p.functions[..i] + [p.functions[i]];
      cursor := cursor + |p.functions[i].code| + |debug|;
      qs := qs + [f];
    }
    assert p.functions[..|p.functions|] == p.functions;
    ghost var tab := strings.interned;
    var debug := SerializeDebugMap(p.debug, strings);
    GrowsTwice(tab0, tab, strings.interned);
    FuncsStill(p.functions, qs, first, tab, strings.interned);
    q := Place(at, qs, cursor, debug);
  }

  lemma IsPlaced(f: Func, q: FuncPlace, at: nat, tab: Table)
    requires q == FuncPlace(at, DebugBytes(f.debug, tab)) && DebugKnown(f.debug, tab)
    ensures FuncPlaced(f, q, at, tab) && FuncSize(f) == |f.code| + |q.debug|
  {
  }

  // ---- names ----

  predicate NamesKnown(p: Pack, tab: Table) {
    p.name in tab && forall f | f in p.functions :: f.name in tab
  }

  lemma NameStill(name: string, tab: Table, tab1: Table)
    requires name in tab && Grows(tab, tab1)
    ensures name in tab1 && OffsetOf(name, tab1) == OffsetOf(name, tab)
  {
    assert Knows(tab, name, tab[name]);
  }

  lemma NamesStill(p: Pack, tab: Table, tab1: Table)
    requires NamesKnown(p, tab) && Grows(tab, tab1)
    ensures NamesKnown(p, tab1)
  {
    NameStill(p.name, tab, tab1);
    forall f | f in p.functions
      ensures f.name in tab1
    {
      NameStill(f.name, tab, tab1);
    }
  }

  /** Intern the names of a package and its functions. */
  method InternNames(p: Pack, strings: StringTable)
    requires strings.Valid()
    modifies strings
    ensures strings.Valid() && Grows(old(strings.interned), strings.interned) && NamesKnown(p, strings.interned)
  {
    var offset := strings.Intern(p.name);
    for i := 0 to |p.functions|
      invariant strings.Valid() && Grows(old(strings.interned), strings.interned) && p.name in strings.interned
      invariant forall f | f in p.functions[..i] :: f.name in strings.interned
    {
      ghost var tab := strings.interned;
      offset := strings.Intern(p.functions[i].name);
      assert p.functions[..i + 1] == p.functions[..i] + [p.functions[i]];
    }
  }

  // ---- writing ----

  /** The bytes of `out` between `lo` and `hi` are those of the finished image. */
  ghost predicate Filled(out: array<Byte>, image: seq<Byte>, lo: nat, hi: nat)
    reads out
  {
    out.Length == |image| && hi <= |image| && forall k | lo <= k < hi :: out[k] == image[k]
  }

  /** Copy a blob to its place in the image; what stands right elsewhere stays. */
  method WriteBlob(out: array<Byte>, at: nat, blob: seq<Byte>, ghost image: seq<Byte>)
    requires out.Length == |image| && Carries(image, at, blob)
    modifies out
    ensures Filled(out, image, at, at + |blob|)
    ensures forall k | 0 <= k < |image| && old(out[k]) == image[k] :: out[k] == image[k]
  {
    CarriesSlice(image, at, blob);
    for i := 0 to |blob|
      invariant forall k | at <= k < at + i :: out[k] == image[k]
      invariant forall k | 0 <= k < |image| && old(out[k]) == image[k] :: out[k] == image[k]
    {
      assert blob[i] == image[at..at + |blob|][i];
      out[at + i] := blob[i];
    }
  }

  /** A list of 64-bit fields, copied to its place. */
  method WriteWords(out: array<Byte>, at: nat, words: seq<nat>, ghost image: seq<Byte>)
    requires out.Length == |image| && Carries(image, at, EncWords(words))
    modifies out
    ensures Filled(out, image, at, at + 8 * |words|)
    ensures forall k | 0 <= k < |image| && old(out[k]) == image[k] :: out[k] == image[k]
  {
    WriteBlob(out, at, EncWords(words), image);
  }

  // ---- the whole image ----

  /** Where a function's descriptor, code and debug map stand in a package's share. */
  lemma {:induction false} FuncSections(s: seq<Byte>, desc: nat, at: nat, fs: seq<Func>, qs: seq<FuncPlace>, tab: Table,
      j: nat)
    requires Carries(s, desc, FuncDescs(fs, at, tab)) && Carries(s, at, FuncParts(fs, tab))
      && FuncsPlaced(fs, qs, at, tab)
    requires j < |fs|
    ensures |qs| == |fs| && qs[j].at == at + FuncsSize(fs[..j]) && |qs[j].debug| == DebugSize(fs[j].debug)
    ensures FuncsSize(fs[..j + 1]) == FuncsSize(fs[..j]) + FuncSize(fs[j])
    ensures Carries(s, desc + FuncDescSize * j, EncWords(FuncWords(fs[j], qs[j].at, tab)))
    ensures Carries(s, qs[j].at, fs[j].code) && Carries(s, qs[j].at + |fs[j].code|, qs[j].debug)
    decreases |fs|
  {
    hide Carries, EncWords, FuncWords, DebugBytes;
    var f, rest := fs[0], fs[1..];
    CarriesParts(s, desc, EncWords(FuncWords(f, at, tab)), FuncDescs(rest, at + FuncSize(f), tab));
    CarriesParts(s, at, FuncPart(f, tab), FuncParts(rest, tab));
    if j == 0 {
      CarriesParts(s, at, f.code, DebugBytes(f.debug, tab));
      assert fs[..0] == [] && fs[..1] == [f];
    } else {
      FuncSections(s, desc + FuncDescSize, at + FuncSize(f), rest, qs[1..], tab, j - 1);
      assert fs[..j] == [f] + rest[..j - 1] && fs[..j + 1] == [f] + rest[..j];
      assert fs[..j][1..] == rest[..j - 1] && fs[..j + 1][1..] == rest[..j];
    }
  }

  lemma PackSections(s: seq<Byte>, at: nat, p: Pack, q: Place, tab: Table)
    requires Carries(s, at, PackPart(p, at, tab)) && PackPlaced(p, q, at, tab)
    ensures at + PackSize(p) <= |s|
    ensures Carries(s, at, FuncDescs(p.functions, at + FuncDescSize * |p.functions|, tab))
    ensures Carries(s, at + FuncDescSize * |p.functions|, FuncParts(p.functions, tab))
    ensures Carries(s, q.initAt, p.init) && Carries(s, q.initAt + |p.init|, q.debug)
  {
    hide Carries, FuncDescs, FuncParts, DebugBytes, FuncsPlaced;
    var first := at + FuncDescSize * |p.functions|;
    var descs, parts, tail := FuncDescs(p.functions, first, tab), FuncParts(p.functions, tab),
      p.init + DebugBytes(p.debug, tab);
    CarriesSlice(s, at, PackPart(p, at, tab));
    CarriesParts(s, at, descs, parts + tail);
    CarriesParts(s, first, parts, tail);
    CarriesParts(s, InitAt(p, at), p.init, DebugBytes(p.debug, tab));
  }

  /** What stood right before still does. */
  twostate predicate Kept(out: array<Byte>, image: seq<Byte>)
    reads out
  {
    out.Length == |image| && forall k | 0 <= k < |image| && old(out[k]) == image[k] :: out[k] == image[k]
  }

  /** A package's functions: descriptor, code and debug map of each. */
  method WriteFuncs(out: array<Byte>, p: Pack, q: Place, strings: StringTable, ghost image: seq<Byte>)
    requires out.Length == |image| && PackPlaced(p, q, q.at, strings.interned) && NamesKnown(p, strings.interned)
    requires Carries(image, q.at, PackPart(p, q.at, strings.interned))
    modifies out
    ensures Kept(out, image) && Filled(out, image, q.at, q.initAt)
  {
    hide Carries, FuncDescs, FuncParts, PackPart, FuncsPlaced, EncWords, FuncWords, FuncSize;
    ghost var first, tab := q.at + FuncDescSize * |p.functions|, strings.interned;
    PackSections(image, q.at, p, q, tab);
    assert p.functions[..0] == [];
    for j := 0 to |p.functions|
      invariant Kept(out, image)
      invariant Filled(out, image, q.at, q.at + FuncDescSize * j)
        && Filled(out, image, first, first + FuncsSize(p.functions[..j]))
    {
      FuncSections(image, q.at, first, p.functions, q.functions, tab, j);
      WriteFunc(out, p.functions[j], q.functions[j], q.at + FuncDescSize * j, strings, image);
    }
    assert p.functions[..|p.functions|] == p.functions;
  }

  method WriteFunc(out: array<Byte>, f: Func, q: FuncPlace, desc: nat, strings: StringTable, ghost image: seq<Byte>)
    requires out.Length == |image| && f.name in strings.interned && |q.debug| == DebugSize(f.debug)
    requires Carries(image, desc, EncWords(FuncWords(f, q.at, strings.interned)))
    requires Carries(image, q.at, f.code) && Carries(image, q.at + |f.code|, q.debug)
    modifies out
    ensures Kept(out, image) && Filled(out, image, desc, desc + FuncDescSize)
      && Filled(out, image, q.at, q.at + FuncSize(f))
  {
    hide Carries, EncWords;
    WriteWords(out, desc, [strings.interned[f.name], |f.name|, q.at, |f.code|, q.at + |f.code|, |q.debug|], image);
    WriteBlob(out, q.at, f.code, image);
    WriteBlob(out, q.at + |f.code|, q.debug, image);
  }

  method WritePack(out: array<Byte>, p: Pack, q: Place, strings: StringTable, ghost image: seq<Byte>)
    requires out.Length == |image| && PackPlaced(p, q, q.at, strings.interned) && NamesKnown(p, strings.interned)
    requires Carries(image, q.at, PackPart(p, q.at, strings.interned))
    modifies out
    ensures Kept(out, image) && Filled(out, image, q.at, q.at + PackSize(p))
  {
    hide Carries, FuncsPlaced, PackPart;
    PackSections(image, q.at, p, q, strings.interned);
    WriteFuncs(out, p, q, strings, image);
    WriteBlob(out, q.initAt, p.init, image);
    WriteBlob(out, q.initAt + |p.init|, q.debug, image);
  }

  lemma {:induction false} PackAt(s: seq<Byte>, at: nat, ps: seq<Pack>, qs: seq<Place>, tab: Table, i: nat)
    requires Carries(s, at, PackParts(ps, at, tab)) && PacksPlaced(ps, qs, at, tab) && i < |ps|
    ensures |qs| == |ps| && qs[i].at == at + PacksSize(ps[..i]) && PackPlaced(ps[i], qs[i], qs[i].at, tab)
    ensures Carries(s, qs[i].at, PackPart(ps[i], qs[i].at, tab))
    ensures PacksSize(ps[..i + 1]) == PacksSize(ps[..i]) + PackSize(ps[i])
    decreases |ps|
  {
    hide Carries, PackPart, PackPlaced, PackSize;
    var p, rest := ps[0], ps[1..];
    CarriesParts(s, at, PackPart(p, at, tab), PackParts(rest, at + PackSize(p), tab));
    if i == 0 {
      assert ps[..0] == [] && ps[..1] == [p];
      PlacedThere(p, qs[0], at, tab);
    } else {
      PackAt(s, at + PackSize(p), rest, qs[1..], tab, i - 1);
      assert ps[..i] == [p] + rest[..i - 1] && ps[..i + 1] == [p] + rest[..i];
      assert ps[..i][1..] == rest[..i - 1] && ps[..i + 1][1..] == rest[..i];
    }
  }

  lemma PlacedThere(p: Pack, q: Place, at: nat, tab: Table)
    requires PackPlaced(p, q, at, tab)
    ensures q.at == at
  {
  }

  lemma {:induction false} DescAt(s: seq<Byte>, desc: nat, at: nat, ps: seq<Pack>, tab: Table, i: nat)
    requires Carries(s, desc, PackDescs(ps, at, tab)) && i < |ps|
    ensures Carries(s, desc + PackDescSize * i, EncWords(PackWords(ps[i], at + PacksSize(ps[..i]), tab)))
    decreases |ps|
  {
    hide Carries, EncWords, PackWords, PackSize;
    var p, rest := ps[0], ps[1..];
    CarriesParts(s, desc, EncWords(PackWords(p, at, tab)), PackDescs(rest, at + PackSize(p), tab));
    if i == 0 {
      assert ps[..0] == [];
    } else {
      DescAt(s, desc + PackDescSize, at + PackSize(p), rest, tab, i - 1);
      assert ps[..i] == [p] + rest[..i - 1] && ps[..i][1..] == rest[..i - 1];
    }
  }

  lemma {:induction false} PartsSnoc(ps: seq<Pack>, p: Pack, at: nat, tab: Table)
    ensures PacksSize(ps + [p]) == PacksSize(ps) + PackSize(p)
    ensures PackParts(ps + [p], at, tab) == PackParts(ps, at, tab) + PackPart(p, at + PacksSize(ps), tab)
  {
    hide PackPart, PackSize;
    if ps == [] {
      assert ps + [p] == [p] && [p][1..] == [];
    } else {
      PartsSnoc(ps[1..], p, at + PackSize(ps[0]), tab);
      assert (ps + [p])[1..] == ps[1..] + [p];
      Joined(PackPart(ps[0], at, tab), PackParts(ps[1..], at + PackSize(ps[0]), tab),
        PackPart(p, at + PacksSize(ps), tab));
    }
  }

  /** The fields of a package's descriptor. */
  function DescriptorOf(p: Pack, q: Place, tab: Table): seq<nat> {
    [OffsetOf(p.name, tab), |p.name|, q.initAt, |p.init|, q.at, |p.functions|, q.initAt + |p.init|, |q.debug|]
  }

  lemma DescriptorIs(p: Pack, q: Place, tab: Table)
    requires PackPlaced(p, q, q.at, tab)
    ensures DescriptorOf(p, q, tab) == PackWords(p, q.at, tab) && PackSize(p) == q.initAt + |p.init| + |q.debug| - q.at
  {
  }

  /** Give every package its place, in order. */
  method PlacePacks(ps: seq<Pack>, start: nat, strings: StringTable) returns (qs: seq<Place>, cursor: nat)
    requires strings.Valid()
    modifies strings
    ensures strings.Valid() && Grows(old(strings.interned), strings.interned)
    ensures PacksPlaced(ps, qs, start, strings.interned) && cursor == start + PacksSize(ps) && |qs| == |ps|
  {
    hide PackPlaced, Grows, PackSize;
    ghost var tab0 := strings.interned;
    GrowsSelf(tab0);
    qs, cursor := [], start;
    assert ps[..0] == [];
    for i := 0 to |ps|
      invariant strings.Valid() && Grows(tab0, strings.interned)
      invariant PacksPlaced(ps[..i], qs, start, strings.interned) && cursor == start + PacksSize(ps[..i])
    {
      ghost var tab := strings.interned;
      var q := PlacePack(ps[i], cursor, strings);
      GrowsTwice(tab0, tab, strings.interned);
      PacksStill(ps[..i], qs, start, tab, strings.interned);
      PacksPlacedSnoc(ps[..i], qs, ps[i], q, start, strings.interned);
      PlacedThere(ps[i], q, cursor, strings.interned);
      DescriptorIs(ps[i], q, strings.interned);
      assert ps[..i + 1] == ps[..i] + [ps[i]];
      qs, cursor := qs + [q], q.initAt + |ps[i].init| + |q.debug|;
    }
    assert ps[..|ps|] == ps;
  }

  ghost predicate AllNames(ps: seq<Pack>, tab: Table) {
    forall p | p in ps :: NamesKnown(p, tab)
  }

  lemma AllNamesStill(ps: seq<Pack>, tab: Table, tab1: Table)
    requires AllNames(ps, tab) && Grows(tab, tab1)
    ensures AllNames(ps, tab1)
  {
    forall p | p in ps
      ensures NamesKnown(p, tab1)
    {
      NamesStill(p, tab, tab1);
    }
  }

  /** Every file a debug map names is in the table. */
  predicate MapsKnown(p: Pack, tab: Table) {
    DebugKnown(p.debug, tab) && forall f | f in p.functions :: DebugKnown(f.debug, tab)
  }

  predicate AllMapsKnown(ps: seq<Pack>, tab: Table) {
    forall p | p in ps :: MapsKnown(p, tab)
  }

  lemma {:induction false} FuncsKnown(fs: seq<Func>, qs: seq<FuncPlace>, at: nat, tab: Table)
    requires FuncsPlaced(fs, qs, at, tab)
    ensures forall f | f in fs :: DebugKnown(f.debug, tab)
    decreases |fs|
  {
    hide DebugKnown;
    if fs != [] {
      FuncsKnown(fs[1..], qs[1..], at + FuncSize(fs[0]), tab);
      assert forall f | f in fs :: f == fs[0] || f in fs[1..];
    }
  }

  lemma {:induction false} PlacedKnown(ps: seq<Pack>, qs: seq<Place>, at: nat, tab: Table)
    requires PacksPlaced(ps, qs, at, tab)
    ensures AllMapsKnown(ps, tab)
    decreases |ps|
  {
    hide DebugKnown, FuncsPlaced, PackSize;
    if ps != [] {
      FuncsKnown(ps[0].functions, qs[0].functions, at + FuncDescSize * |ps[0].functions|, tab);
      PlacedKnown(ps[1..], qs[1..], at + PackSize(ps[0]), tab);
      assert forall p | p in ps :: p == ps[0] || p in ps[1..];
    }
  }

  method InternAll(ps: seq<Pack>, strings: StringTable)
    requires strings.Valid()
    modifies strings
    ensures strings.Valid() && Grows(old(strings.interned), strings.interned) && AllNames(ps, strings.interned)
  {
    hide Grows, NamesKnown;
    ghost var tab0 := strings.interned;
    GrowsSelf(tab0);
    for i := 0 to |ps|
      invariant strings.Valid() && Grows(tab0, strings.interned) && AllNames(ps[..i], strings.interned)
    {
      ghost var tab := strings.interned;
      InternNames(ps[i], strings);
      GrowsTwice(tab0, tab, strings.interned);
      AllNamesStill(ps[..i], tab, strings.interned);
      assert ps[..i + 1] == ps[..i] + [ps[i]];
    }
    assert ps[..|ps|] == ps;
  }

  method WriteHeader(out: array<Byte>, main: Pack, q: Place, imports: nat, cursor: nat, strings: StringTable,
      ghost image: seq<Byte>)
    requires out.Length == |image| && HeaderPlanned(image, main, q, imports, cursor, strings.interned, |strings.data|)
    modifies out
    ensures Kept(out, image) && Filled(out, image, 0, HeaderSize)
  {
    hide Carries, EncWords, DescriptorOf, LE;
    WriteBlob(out, 0, [77, 88], image);
    WriteBlob(out, 2, LE(Version, 2), image);
    WriteWords(out, 4, [strings.interned[main.name], |main.name|, HeaderSize, imports, q.initAt, |main.init|, cursor,
      |strings.data|], image);
    DescriptorLength(main, q, strings.interned);
    WriteWords(out, 68, DescriptorOf(main, q, strings.interned), image);
  }

  lemma DescriptorLength(p: Pack, q: Place, tab: Table)
    ensures |DescriptorOf(p, q, tab)| == 8
  {
  }

  /** The finished image and everything that is needed of it while it is written. */
  ghost predicate Planned(image: seq<Byte>, ps: seq<Pack>, qs: seq<Place>, cursor: nat, tab: Table, data: seq<Byte>) {
    && ps != [] && PacksPlaced(ps, qs, PacksAt(ps[..|ps| - 1]), tab) && AllNames(ps, tab)
    && cursor == PacksAt(ps[..|ps| - 1]) + PacksSize(ps)
    && image == ImageOf(ps[..|ps| - 1], ps[|ps| - 1], tab, data) && |image| == cursor + |data|
  }

  /** Everything the packages lay out, read off the image. */
  lemma PlanSections(image: seq<Byte>, ps: seq<Pack>, qs: seq<Place>, cursor: nat, tab: Table, data: seq<Byte>)
    requires Planned(image, ps, qs, cursor, tab, data)
    ensures
      var imports, main := ps[..|ps| - 1], ps[|ps| - 1];
      && Carries(image, 0, Header(imports, main, tab, |data|))
        && Carries(image, HeaderSize, PackDescs(imports, PacksAt(imports), tab))
      && Carries(image, PacksAt(imports), PackParts(ps, PacksAt(imports), tab)) && Carries(image, cursor, data)
      && cursor == StringsAt(imports, main) && |qs| == |ps| && qs[|ps| - 1].at == MainAt(imports)
        && |image| == cursor + |data|
  {
    hide Carries, Header, PackDescs, PackPart, PackPlaced, PackSize, ImageOf, AllNames;
    var imports, main := ps[..|ps| - 1], ps[|ps| - 1];
    Sections(imports, main, tab, data);
    PartsSnoc(imports, main, PacksAt(imports), tab);
    assert ps == imports + [main];
    CarriesParts(image, PacksAt(imports), PackParts(imports, PacksAt(imports), tab),
      PackPart(main, MainAt(imports), tab));
    PackAt(image, PacksAt(imports), ps, qs, tab, |ps| - 1);
  }

  lemma PlanHolds(ps: seq<Pack>, qs: seq<Place>, cursor: nat, tab: Table, data: seq<Byte>)
    requires ps != [] && PacksPlaced(ps, qs, PacksAt(ps[..|ps| - 1]), tab) && AllNames(ps, tab)
    requires cursor == PacksAt(ps[..|ps| - 1]) + PacksSize(ps)
    ensures Planned(ImageOf(ps[..|ps| - 1], ps[|ps| - 1], tab, data), ps, qs, cursor, tab, data)
  {
    hide PacksPlaced, AllNames, PackSize, ImageOf, PackPart;
    var imports, main := ps[..|ps| - 1], ps[|ps| - 1];
    assert ps == imports + [main];
    PartsSnoc(imports, main, PacksAt(imports), tab);
  }

  /** The entry package's header and descriptor stand in the image as they are written. */
  predicate HeaderPlanned(image: seq<Byte>, main: Pack, q: Place, imports: nat, cursor: nat, tab: Table, length: nat) {
    && main.name in tab && Carries(image, 0, [77, 88]) && Carries(image, 2, LE(Version, 2))
    && Carries(image, 4, EncWords([OffsetOf(main.name, tab), |main.name|, HeaderSize, imports, q.initAt, |main.init|,
      cursor, length]))
    && Carries(image, 68, EncWords(DescriptorOf(main, q, tab)))
  }

  lemma PlanHeader(image: seq<Byte>, ps: seq<Pack>, qs: seq<Place>, cursor: nat, tab: Table, data: seq<Byte>)
    requires ps != [] && |qs| == |ps| && Planned(image, ps, qs, cursor, tab, data)
    ensures HeaderPlanned(image, ps[|ps| - 1], qs[|ps| - 1], |ps| - 1, cursor, tab, |data|)
  {
    hide Carries, EncWords, Header, DescriptorOf, PackDescs, PackParts, PackPart, PacksPlaced, ImageOf;
    var imports, main, q := ps[..|ps| - 1], ps[|ps| - 1], qs[|ps| - 1];
    PlanSections(image, ps, qs, cursor, tab, data);
    HeaderSections(image, imports, main, tab, |data|);
    PackAt(image, PacksAt(imports), ps, qs, tab, |ps| - 1);
    DescriptorIs(main, q, tab);
    assert main in ps && NamesKnown(main, tab);
    assert HeaderWords(main, MainAt(imports), |imports|, StringsAt(imports, main), |data|, tab)
        == [OffsetOf(main.name, tab), |main.name|, HeaderSize, |ps| - 1, q.initAt, |main.init|, cursor, |data|];
  }

  /** Descriptors of the imports. */
  method WriteImports(out: array<Byte>, ps: seq<Pack>, qs: seq<Place>, cursor: nat, strings: StringTable,
      ghost image: seq<Byte>)
    requires Planned(image, ps, qs, cursor, strings.interned, strings.data) && out.Length == |image|
    requires ps != [] && |qs| == |ps| && PacksPlaced(ps, qs, PacksAt(ps[..|ps| - 1]), strings.interned)
    modifies out
    ensures Kept(out, image) && Filled(out, image, HeaderSize, HeaderSize + PackDescSize * (|ps| - 1))
  {
    hide Carries, EncWords, DescriptorOf, PackDescs, PackParts, PackPart, PacksPlaced, PackPlaced, ImageOf, Header,
      Planned, PackWords;
    ghost var imports, tab := ps[..|ps| - 1], strings.interned;
    PlanSections(image, ps, qs, cursor, tab, strings.data);
    for i := 0 to |ps| - 1
      invariant Kept(out, image) && Filled(out, image, HeaderSize, HeaderSize + PackDescSize * i)
    {
      DescAt(image, HeaderSize, PacksAt(imports), imports, tab, i);
      PackAt(image, PacksAt(imports), ps, qs, tab, i);
      assert imports[..i] == ps[..i];
      DescriptorIs(ps[i], qs[i], tab);
      DescriptorLength(ps[i], qs[i], tab);
      WriteWords(out, HeaderSize + PackDescSize * i, DescriptorOf(ps[i], qs[i], strings.interned), image);
    }
  }

  method WritePacks(out: array<Byte>, ps: seq<Pack>, qs: seq<Place>, cursor: nat, strings: StringTable,
      ghost image: seq<Byte>)
    requires Planned(image, ps, qs, cursor, strings.interned, strings.data) && out.Length == |image| && |qs| == |ps|
    modifies out
    ensures Kept(out, image) && Filled(out, image, PacksAt(ps[..|ps| - 1]), cursor)
  {
    hide Carries, PackDescs, PackParts, PackPart, PacksPlaced, ImageOf, Header, PackPlaced, PackSize, NamesKnown;
    ghost var at, tab := PacksAt(ps[..|ps| - 1]), strings.interned;
    PlanSections(image, ps, qs, cursor, tab, strings.data);
    assert ps[..0] == [];
    for i := 0 to |ps|
      invariant Kept(out, image) && at + PacksSize(ps[..i]) <= |image|
      invariant Filled(out, image, at, at + PacksSize(ps[..i]))
    {
      PackAt(image, at, ps, qs, tab, i);
      assert ps[i] in ps;
      WritePack(out, ps[i], qs[i], strings, image);
    }
    assert ps[..|ps|] == ps;
  }

  /** Lay out the image of some packages, the entry package last: names first, so that the
      table stops growing at the last debug map, then offsets, then every section. */
  method LayOut(ps: seq<Pack>, strings: StringTable) returns (out: array<Byte>)
    requires ps != [] && strings.Valid()
    modifies strings
    ensures fresh(out) && strings.Valid() && Grows(old(strings.interned), strings.interned)
    ensures out[..] == ImageOf(ps[..|ps| - 1], ps[|ps| - 1], strings.interned, strings.data)
    ensures AllNames(ps, strings.interned) && AllMapsKnown(ps, strings.interned)
  {
    hide AllMapsKnown, Carries, EncWords, Planned, PacksPlaced, ImageOf, AllNames, Grows, PackSize, DescriptorOf,
      HeaderPlanned;
    InternAll(ps, strings);
    ghost var tab := strings.interned;
    var qs, cursor := PlacePacks(ps, HeaderSize + PackDescSize * (|ps| - 1), strings);
    AllNamesStill(ps, tab, strings.interned);
    GrowsTwice(old(strings.interned), tab, strings.interned);
    PlacedKnown(ps, qs, HeaderSize + PackDescSize * (|ps| - 1), strings.interned);
    ghost var image := ImageOf(ps[..|ps| - 1], ps[|ps| - 1], strings.interned, strings.data);
    PlanHolds(ps, qs, cursor, strings.interned, strings.data);
    PlanLength(image, ps, qs, cursor, strings.interned, strings.data);
    PlanHeader(image, ps, qs, cursor, strings.interned, strings.data);
    PlanSections(image, ps, qs, cursor, strings.interned, strings.data);
    out := new Byte[cursor + |strings.data|](_ => 0);
    WriteHeader(out, ps[|ps| - 1], qs[|ps| - 1], |ps| - 1, cursor, strings, image);
    WriteImports(out, ps, qs, cursor, strings, image);
    WritePacks(out, ps, qs, cursor, strings, image);
    WriteBlob(out, cursor, strings.data, image);
    assert out[..] == image;
  }

  lemma PlanLength(image: seq<Byte>, ps: seq<Pack>, qs: seq<Place>, cursor: nat, tab: Table, data: seq<Byte>)
    requires Planned(image, ps, qs, cursor, tab, data)
    ensures |image| == cursor + |data|
  {
  }
}
