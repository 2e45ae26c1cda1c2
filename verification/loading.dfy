/** Which files are images, byte by byte, and what is read from one. */
module Loading {
  import opened Bytes
  import opened Syntax
  import opened Encoding
  import opened Words
  import opened DebugMaps
  import opened Images
  import opened CodeFormat

  lemma {:induction false} WordsAt(s: seq<Byte>, at: nat, n: nat)
    ensures ReadWords(s, at, n).Got? <==> at + 8 * n <= |s|
    ensures
      var r := ReadWords(s, at, n);
      r.Got? ==> r.next == at + 8 * n && forall i | 0 <= i < n :: r.value[i] == U64At(s, at + 8 * i)
    decreases n
  {
    hide U64At;
    if n > 0 {
      Read64(s, at);
      if at + 8 <= |s| {
        WordsAt(s, at + 8, n - 1);
        var r := ReadWords(s, at + 8, n - 1);
        if r.Got? {
          forall i | 0 <= i < n
            ensures ([U64At(s, at)] + r.value)[i] == U64At(s, at + 8 * i)
          {
            if i > 0 {
              assert r.value[i - 1] == U64At(s, at + 8 + 8 * (i - 1));
            }
          }
        }
      }
    }
  }

  // ---- names, code and debug maps ----

  /** A name is a piece of the string table, addressed with 32 bits. */
  predicate NameOk(strs: seq<Byte>, at: nat, n: nat) {
    at < U32 && n < U32 && at + n <= |strs|
  }

  lemma NameExactly(strs: seq<Byte>, at: nat, n: nat)
    ensures NameAt(strs, at, n).Some? <==> NameOk(strs, at, n)
    ensures NameAt(strs, at, n).Some? ==> NameIs(strs, at, n, NameAt(strs, at, n).value)
  {
    if at + n <= |strs| {
      TextIs(strs, at, n);
    }
  }

  ghost predicate CodeOk(s: seq<Byte>, strs: seq<Byte>, at: nat, n: nat) {
    at + n <= |s| && CoveredFrom(s[at..at + n], strs, 0)
  }

  lemma CodeExactly(s: seq<Byte>, strs: seq<Byte>, at: nat, n: nat)
    ensures CodeAt(s, strs, at, n) == if CodeOk(s, strs, at, n) then Some(s[at..at + n]) else None
  {
    hide Walk, CoveredFrom;
    if at + n <= |s| {
      WalkExactly(s[at..at + n], strs, 0);
    }
  }

  /** A debug map counts its entries; each is 20 bytes and names a file. */
  predicate EntryOk(blob: seq<Byte>, strs: seq<Byte>, at: nat) {
    at + 20 <= |blob| && U32At(blob, at + 12) + U32At(blob, at + 16) <= |strs|
  }

  predicate EntryIs(blob: seq<Byte>, strs: seq<Byte>, at: nat, e: Loc)
    requires at + 20 <= |blob|
  {
    && e.pc == U32At(blob, at) && e.line == U32At(blob, at + 4) && e.column == U32At(blob, at + 8)
    && NameIs(strs, U32At(blob, at + 12), U32At(blob, at + 16), e.file)
  }

  predicate EntriesOk(blob: seq<Byte>, strs: seq<Byte>, at: nat, n: nat) {
    forall i: nat | i < n :: EntryOk(blob, strs, at + 20 * i)
  }

  predicate EntriesAre(blob: seq<Byte>, strs: seq<Byte>, at: nat, map_: seq<Loc>) {
    forall i: nat {:trigger map_[i]} | i < |map_| ::
      at + 20 * i + 20 <= |blob| && EntryIs(blob, strs, at + 20 * i, map_[i])
  }

  lemma OneEntry(blob: seq<Byte>, strs: seq<Byte>, at: nat)
    requires at + 20 <= |blob|
    ensures ReadText(blob, strs, at + 12).Got? <==> EntryOk(blob, strs, at)
    ensures
      var file := ReadText(blob, strs, at + 12);
      file.Got? ==> file.next == at + 20 && EntryIs(blob, strs, at,
        Loc(FromLE(blob[at..at + 4]), FromLE(blob[at + 4..at + 8]),
        FromLE(blob[at + 8..at + 12]), file.value))
  {
    hide U32At, FromLE;
    Read32(blob, at);
    Read32(blob, at + 4);
    Read32(blob, at + 8);
    Read32(blob, at + 12);
    Read32(blob, at + 16);
    var a, n := U32At(blob, at + 12), U32At(blob, at + 16);
    if a + n <= |strs| {
      TextIs(strs, a, n);
    }
  }

  lemma {:induction false} EntriesExactly(blob: seq<Byte>, strs: seq<Byte>, at: nat, n: nat)
    ensures ParseEntries(blob, strs, at, n).Some? <==> EntriesOk(blob, strs, at, n)
    ensures
      var r := ParseEntries(blob, strs, at, n);
      r.Some? ==> |r.value| == n && EntriesAre(blob, strs, at, r.value)
    decreases n
  {
    hide EntryIs, ReadText, FromLE;
    if n > 0 {
      assert EntryOk(blob, strs, at + 20 * 0) == EntryOk(blob, strs, at);
      if at + 20 <= |blob| {
        OneEntry(blob, strs, at);
        EntriesExactly(blob, strs, at + 20, n - 1);
        EntriesShift(blob, strs, at, n);
        hide EntryOk;
        var rest := ParseEntries(blob, strs, at + 20, n - 1);
        var r := ParseEntries(blob, strs, at, n);
        if r.Some? {
          forall i: nat | i < n
            ensures at + 20 * i + 20 <= |blob| && EntryIs(blob, strs, at + 20 * i, r.value[i])
          {
            if i > 0 {
              assert rest.value[i - 1] == r.value[i] && at + 20 + 20 * (i - 1) == at + 20 * i;
            }
          }
        }
      }
    }
  }

  lemma EntriesShift(blob: seq<Byte>, strs: seq<Byte>, at: nat, n: nat)
    requires n > 0
    ensures EntriesOk(blob, strs, at, n) <==> EntryOk(blob, strs, at) && EntriesOk(blob, strs, at + 20, n - 1)
  {
    hide EntryOk;
    if EntriesOk(blob, strs, at, n) {
      assert EntryOk(blob, strs, at + 20 * 0);
      forall i: nat | i < n - 1
        ensures EntryOk(blob, strs, at + 20 + 20 * i)
      {
        assert EntryOk(blob, strs, at + 20 * (i + 1));
      }
    }
    if EntryOk(blob, strs, at) && EntriesOk(blob, strs, at + 20, n - 1) {
      forall i: nat | i < n
        ensures EntryOk(blob, strs, at + 20 * i)
      {
        if i > 0 {
          assert EntryOk(blob, strs, at + 20 + 20 * (i - 1));
        }
      }
    }
  }

  predicate MapOk(blob: seq<Byte>, strs: seq<Byte>) {
    |blob| >= 4 ==> EntriesOk(blob, strs, 4, U32At(blob, 0))
  }

  predicate MapIs(blob: seq<Byte>, strs: seq<Byte>, map_: seq<Loc>) {
    |map_| == (if |blob| < 4 then 0 else U32At(blob, 0)) && EntriesAre(blob, strs, 4, map_)
  }

  predicate DebugOk(s: seq<Byte>, strs: seq<Byte>, at: nat, n: nat) {
    n > 0 ==> at + n <= |s| && MapOk(s[at..at + n], strs)
  }

  predicate DebugIs(s: seq<Byte>, strs: seq<Byte>, at: nat, n: nat, map_: seq<Loc>)
    requires n > 0 ==> at + n <= |s|
  {
    if n == 0 then map_ == [] else MapIs(s[at..at + n], strs, map_)
  }

  lemma DebugExactly(s: seq<Byte>, strs: seq<Byte>, at: nat, n: nat)
    ensures DebugAt(s, strs, at, n).Some? <==> DebugOk(s, strs, at, n)
    ensures DebugAt(s, strs, at, n).Some? ==> DebugIs(s, strs, at, n, DebugAt(s, strs, at, n).value)
  {
    hide U32At, ParseEntries, EntriesOk, EntriesAre;
    if n > 0 && at + n <= |s| {
      var blob := s[at..at + n];
      if |blob| >= 4 {
        Read32(blob, 0);
        assert blob[..4] == blob[0..4];
        EntriesExactly(blob, strs, 4, U32At(blob, 0));
      } else {
        NoEntriesAre(blob, strs);
      }
    }
  }

  lemma NoEntriesAre(blob: seq<Byte>, strs: seq<Byte>)
    ensures EntriesAre(blob, strs, 4, [])
  {
  }

  // ---- functions ----

  /** A function's descriptor is 48 bytes: name, code and debug map, each an offset and a length. */
  ghost predicate FunctionOk(s: seq<Byte>, strs: seq<Byte>, at: nat) {
    && at + 48 <= |s|
    && NameOk(strs, U64At(s, at), U64At(s, at + 8))
    && CodeOk(s, strs, U64At(s, at + 16), U64At(s, at + 24))
    && DebugOk(s, strs, U64At(s, at + 32), U64At(s, at + 40))
  }

  ghost predicate FunctionIs(s: seq<Byte>, strs: seq<Byte>, at: nat, f: Func) {
    && FunctionOk(s, strs, at)
    && NameIs(strs, U64At(s, at), U64At(s, at + 8), f.name)
    && f.code == s[U64At(s, at + 16)..U64At(s, at + 16) + U64At(s, at + 24)]
    && DebugIs(s, strs, U64At(s, at + 32), U64At(s, at + 40), f.debug)
  }

  lemma OneFunction(s: seq<Byte>, strs: seq<Byte>, at: nat)
    requires at + 48 <= |s|
    ensures ReadWords(s, at, 6).Got? && ReadWords(s, at, 6).next == at + 48 && |ReadWords(s, at, 6).value| == 6
    ensures
      var r := LoadFunc(s, strs, ReadWords(s, at, 6).value);
      (r.Some? <==> FunctionOk(s, strs, at)) && (r.Some? ==> FunctionIs(s, strs, at, r.value))
  {
    hide ReadWords, U64At, NameAt, NameOk, NameIs, CodeAt, DebugAt, DebugOk, DebugIs, CoveredFrom;
    WordsAt(s, at, 6);
    var w := ReadWords(s, at, 6).value;
    assert w[0] == U64At(s, at + 8 * 0) && w[1] == U64At(s, at + 8 * 1) && w[2] == U64At(s, at + 8 * 2);
    assert w[3] == U64At(s, at + 8 * 3) && w[4] == U64At(s, at + 8 * 4) && w[5] == U64At(s, at + 8 * 5);
    NameExactly(strs, w[0], w[1]);
    CodeExactly(s, strs, w[2], w[3]);
    DebugExactly(s, strs, w[4], w[5]);
  }

  ghost predicate FunctionsOk(s: seq<Byte>, strs: seq<Byte>, at: nat, n: nat) {
    forall i: nat | i < n :: FunctionOk(s, strs, at + 48 * i)
  }

  ghost predicate FunctionsAre(s: seq<Byte>, strs: seq<Byte>, at: nat, fs: seq<Func>) {
    forall i: nat {:trigger fs[i]} | i < |fs| :: FunctionIs(s, strs, at + 48 * i, fs[i])
  }

  lemma FunctionsShift(s: seq<Byte>, strs: seq<Byte>, at: nat, n: nat)
    requires n > 0
    ensures FunctionsOk(s, strs, at, n) <==> FunctionOk(s, strs, at) && FunctionsOk(s, strs, at + 48, n - 1)
  {
    hide FunctionOk;
    if FunctionsOk(s, strs, at, n) {
      assert FunctionOk(s, strs, at + 48 * 0);
      forall i: nat | i < n - 1
        ensures FunctionOk(s, strs, at + 48 + 48 * i)
      {
        assert FunctionOk(s, strs, at + 48 * (i + 1));
      }
    }
    if FunctionOk(s, strs, at) && FunctionsOk(s, strs, at + 48, n - 1) {
      forall i: nat | i < n
        ensures FunctionOk(s, strs, at + 48 * i)
      {
        if i > 0 {
          assert FunctionOk(s, strs, at + 48 + 48 * (i - 1));
        }
      }
    }
  }

  lemma FunctionsEdge(s: seq<Byte>, strs: seq<Byte>, at: nat)
    ensures FunctionsOk(s, strs, at, 0) && FunctionsAre(s, strs, at, [])
    ensures FunctionOk(s, strs, at) ==> at + 48 <= |s|
  {
  }

  lemma {:induction false} FunctionsExactly(s: seq<Byte>, strs: seq<Byte>, at: nat, n: nat)
    ensures LoadFuncs(s, strs, at, n).Some? <==> FunctionsOk(s, strs, at, n)
    ensures
      var r := LoadFuncs(s, strs, at, n);
      r.Some? ==> |r.value| == n && FunctionsAre(s, strs, at, r.value)
    decreases n
  {
    hide FunctionIs, LoadFunc, ReadWords, FunctionOk, FunctionsOk, FunctionsAre;
    if n > 0 {
      FunctionsShift(s, strs, at, n);
      if at + 48 <= |s| {
        OneFunction(s, strs, at);
        FunctionsExactly(s, strs, at + 48, n - 1);
        var r, rest := LoadFuncs(s, strs, at, n), LoadFuncs(s, strs, at + 48, n - 1);
        if r.Some? {
          FunctionsCons(s, strs, at, r.value[0], rest.value);
        }
      } else {
        WordsAt(s, at, 6);
        FunctionsEdge(s, strs, at);
      }
    } else {
      FunctionsEdge(s, strs, at);
    }
  }

  lemma FunctionsCons(s: seq<Byte>, strs: seq<Byte>, at: nat, f: Func, rest: seq<Func>)
    requires FunctionIs(s, strs, at, f) && FunctionsAre(s, strs, at + 48, rest)
    ensures FunctionsAre(s, strs, at, [f] + rest)
  {
    hide FunctionIs;
    var fs := [f] + rest;
    forall i: nat | i < |fs|
      ensures FunctionIs(s, strs, at + 48 * i, fs[i])
    {
      if i > 0 {
        assert rest[i - 1] == fs[i] && at + 48 + 48 * (i - 1) == at + 48 * i;
      }
    }
  }

  // ---- packages ----

  /** A package's descriptor is 64 bytes: name, code of the top level, array and number of
      functions, debug map. */
  ghost predicate PackageOk(s: seq<Byte>, strs: seq<Byte>, at: nat) {
    && at + 64 <= |s|
    && NameOk(strs, U64At(s, at), U64At(s, at + 8))
    && CodeOk(s, strs, U64At(s, at + 16), U64At(s, at + 24))
    && U64At(s, at + 32) + 48 * U64At(s, at + 40) <= |s|
    && FunctionsOk(s, strs, U64At(s, at + 32), U64At(s, at + 40))
    && DebugOk(s, strs, U64At(s, at + 48), U64At(s, at + 56))
  }

  ghost predicate PackageIs(s: seq<Byte>, strs: seq<Byte>, at: nat, p: Pack) {
    && PackageOk(s, strs, at)
    && NameIs(strs, U64At(s, at), U64At(s, at + 8), p.name)
    && p.init == s[U64At(s, at + 16)..U64At(s, at + 16) + U64At(s, at + 24)]
    && |p.functions| == U64At(s, at + 40)
    && FunctionsAre(s, strs, U64At(s, at + 32), p.functions)
    && DebugIs(s, strs, U64At(s, at + 48), U64At(s, at + 56), p.debug)
  }

  lemma OnePackage(s: seq<Byte>, strs: seq<Byte>, at: nat)
    requires at + 64 <= |s|
    ensures ReadWords(s, at, 8).Got? && ReadWords(s, at, 8).next == at + 64 && |ReadWords(s, at, 8).value| == 8
    ensures
      var r := LoadPack(s, strs, ReadWords(s, at, 8).value);
      (r.Some? <==> PackageOk(s, strs, at)) && (r.Some? ==> PackageIs(s, strs, at, r.value))
  {
    hide ReadWords, U64At, NameAt, NameOk, NameIs, CodeAt, DebugAt, DebugOk, DebugIs, CoveredFrom, LoadFuncs,
      FunctionsOk,
      FunctionsAre;
    WordsAt(s, at, 8);
    var w := ReadWords(s, at, 8).value;
    assert w[0] == U64At(s, at + 8 * 0) && w[1] == U64At(s, at + 8 * 1) && w[2] == U64At(s, at + 8 * 2);
    assert w[3] == U64At(s, at + 8 * 3) && w[4] == U64At(s, at + 8 * 4) && w[5] == U64At(s, at + 8 * 5);
    assert w[6] == U64At(s, at + 8 * 6) && w[7] == U64At(s, at + 8 * 7);
    NameExactly(strs, w[0], w[1]);
    CodeExactly(s, strs, w[2], w[3]);
    FunctionsExactly(s, strs, w[4], w[5]);
    DebugExactly(s, strs, w[6], w[7]);
  }

  ghost predicate PackagesOk(s: seq<Byte>, strs: seq<Byte>, at: nat, n: nat) {
    forall i: nat | i < n :: PackageOk(s, strs, at + 64 * i)
  }

  ghost predicate PackagesAre(s: seq<Byte>, strs: seq<Byte>, at: nat, ps: seq<Pack>) {
    forall i: nat {:trigger ps[i]} | i < |ps| :: PackageIs(s, strs, at + 64 * i, ps[i])
  }

  lemma PackagesShift(s: seq<Byte>, strs: seq<Byte>, at: nat, n: nat)
    requires n > 0
    ensures PackagesOk(s, strs, at, n) <==> PackageOk(s, strs, at) && PackagesOk(s, strs, at + 64, n - 1)
  {
    hide PackageOk;
    if PackagesOk(s, strs, at, n) {
      assert PackageOk(s, strs, at + 64 * 0);
      forall i: nat | i < n - 1
        ensures PackageOk(s, strs, at + 64 + 64 * i)
      {
        assert PackageOk(s, strs, at + 64 * (i + 1));
      }
    }
    if PackageOk(s, strs, at) && PackagesOk(s, strs, at + 64, n - 1) {
      forall i: nat | i < n
        ensures PackageOk(s, strs, at + 64 * i)
      {
        if i > 0 {
          assert PackageOk(s, strs, at + 64 + 64 * (i - 1));
        }
      }
    }
  }

  lemma PackagesEdge(s: seq<Byte>, strs: seq<Byte>, at: nat)
    ensures PackagesOk(s, strs, at, 0) && PackagesAre(s, strs, at, [])
    ensures PackageOk(s, strs, at) ==> at + 64 <= |s|
  {
  }

  lemma PackagesCons(s: seq<Byte>, strs: seq<Byte>, at: nat, p: Pack, rest: seq<Pack>)
    requires PackageIs(s, strs, at, p) && PackagesAre(s, strs, at + 64, rest)
    ensures PackagesAre(s, strs, at, [p] + rest)
  {
    hide PackageIs;
    var ps := [p] + rest;
    forall i: nat | i < |ps|
      ensures PackageIs(s, strs, at + 64 * i, ps[i])
    {
      if i > 0 {
        assert rest[i - 1] == ps[i] && at + 64 + 64 * (i - 1) == at + 64 * i;
      }
    }
  }

  lemma {:induction false} PackagesExactly(s: seq<Byte>, strs: seq<Byte>, at: nat, n: nat)
    ensures LoadPacks(s, strs, at, n).Some? <==> PackagesOk(s, strs, at, n)
    ensures
      var r := LoadPacks(s, strs, at, n);
      r.Some? ==> |r.value| == n && PackagesAre(s, strs, at, r.value)
    decreases n
  {
    hide PackageIs, LoadPack, ReadWords, PackageOk, PackagesOk, PackagesAre;
    if n > 0 {
      PackagesShift(s, strs, at, n);
      if at + 64 <= |s| {
        OnePackage(s, strs, at);
        PackagesExactly(s, strs, at + 64, n - 1);
        var r, rest := LoadPacks(s, strs, at, n), LoadPacks(s, strs, at + 64, n - 1);
        if r.Some? {
          PackagesCons(s, strs, at, r.value[0], rest.value);
        }
      } else {
        WordsAt(s, at, 8);
        PackagesEdge(s, strs, at);
      }
    } else {
      PackagesEdge(s, strs, at);
    }
  }

  // ---- whole images ----

  /** The text of all names, which the header's last two fields locate. */
  function Texts(s: seq<Byte>): seq<Byte>
    requires |s| >= 132 && U64At(s, 52) + U64At(s, 60) <= |s|
  {
    s[U64At(s, 52)..U64At(s, 52) + U64At(s, 60)]
  }

  /** A file is an image: it has the signature MX and format 8; its names, its descriptors and
      everything they point to are inside the file; all code is instructions from end to end;
      and the header agrees with the entry package's descriptor, which is its tail. */
  ghost predicate Loadable(s: seq<Byte>) {
    && |s| >= 132
    && s[0] == 0x4D && s[1] == 0x58 && s[2] == 8 && s[3] == 0
    && U64At(s, 52) + U64At(s, 60) <= |s|
    && NameOk(Texts(s), U64At(s, 4), U64At(s, 12))
    && U64At(s, 20) + 64 * U64At(s, 28) <= |s|
    && PackagesOk(s, Texts(s), U64At(s, 20), U64At(s, 28))
    && U64At(s, 36) == U64At(s, 84) && U64At(s, 44) == U64At(s, 92)
    && U64At(s, 4) == U64At(s, 68) && U64At(s, 12) == U64At(s, 76)
    && PackageOk(s, Texts(s), 68)
  }

  /** What is read: the imports in the order of their descriptors, and the entry package. */
  ghost predicate Contains(s: seq<Byte>, ps: seq<Pack>) {
    && Loadable(s)
    && |ps| == U64At(s, 28) + 1
    && PackagesAre(s, Texts(s), U64At(s, 20), ps[..|ps| - 1])
    && PackageIs(s, Texts(s), 68, ps[|ps| - 1])
  }

  lemma Signed(s: seq<Byte>)
    requires |s| >= 4
    ensures s[..2] == [77, 88] && FromLE(s[2..4]) == Version <==> s[0] == 0x4D && s[1] == 0x58 && s[2] == 8 && s[3] == 0
  {
    var v := s[2..4];
    assert v[1..] == [s[3]] && [s[3]][1..] == [];
    assert FromLE(v) == s[2] + 0x100 * FromLE(v[1..]) && FromLE([s[3]]) == s[3] + 0x100 * FromLE([]);
    assert s[..2] == [s[0], s[1]];
  }

  /** The eight fields of the header and the first four of the descriptor behind it. */
  lemma HeaderFields(s: seq<Byte>, h: seq<nat>, e: seq<nat>)
    requires |s| >= 132 && |h| == 8 && |e| == 8
    requires forall i | 0 <= i < 8 :: h[i] == U64At(s, 4 + 8 * i)
    requires forall i | 0 <= i < 8 :: e[i] == U64At(s, 68 + 8 * i)
    ensures h[0] == U64At(s, 4) && h[1] == U64At(s, 12) && h[2] == U64At(s, 20) && h[3] == U64At(s, 28)
    ensures h[4] == U64At(s, 36) && h[5] == U64At(s, 44) && h[6] == U64At(s, 52) && h[7] == U64At(s, 60)
    ensures e[0] == U64At(s, 68) && e[1] == U64At(s, 76) && e[2] == U64At(s, 84) && e[3] == U64At(s, 92)
  {
    hide U64At;
    assert h[0] == U64At(s, 4 + 8 * 0) && h[1] == U64At(s, 4 + 8 * 1) && h[2] == U64At(s, 4 + 8 * 2);
    assert h[3] == U64At(s, 4 + 8 * 3) && h[4] == U64At(s, 4 + 8 * 4) && h[5] == U64At(s, 4 + 8 * 5);
    assert h[6] == U64At(s, 4 + 8 * 6) && h[7] == U64At(s, 4 + 8 * 7);
    assert e[0] == U64At(s, 68 + 8 * 0) && e[1] == U64At(s, 68 + 8 * 1);
    assert e[2] == U64At(s, 68 + 8 * 2) && e[3] == U64At(s, 68 + 8 * 3);
  }

  lemma LoadExactly(s: seq<Byte>)
    ensures Images.Load(s).Some? <==> Loadable(s)
    ensures Images.Load(s).Some? ==> Contains(s, Images.Load(s).value)
  {
    hide ReadWords, U64At, NameAt, NameOk, NameIs, LoadPack, LoadPacks, PackageOk, PackagesOk, PackageIs, PackagesAre,
      FromLE;
    if |s| >= 132 {
      Signed(s);
      WordsAt(s, 4, 8);
      OnePackage(s, [], 68);
      WordsAt(s, 68, 8);
      var h, e := ReadWords(s, 4, 8).value, ReadWords(s, 68, 8).value;
      HeaderFields(s, h, e);
      if h[6] + h[7] <= |s| {
        var strs := Texts(s);
        NameExactly(strs, h[0], h[1]);
        PackagesExactly(s, strs, h[2], h[3]);
        OnePackage(s, strs, 68);
      }
    }
  }
}
