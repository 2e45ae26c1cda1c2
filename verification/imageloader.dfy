/** The loader: it reads an image step by step and stops at the first thing that is wrong. */
module ImageLoader {
  import opened Bytes
  import opened Syntax
  import opened Encoding
  import opened DebugMaps
  import opened Disassembler
  import opened Images
  import Loading

  /** What is there already, and then the rest, if there is a rest. */
  function Then<T>(front: seq<T>, r: Option<seq<T>>): Option<seq<T>> {
    match r case None => None case Some(rest) => Some(front + rest)
  }

  lemma ThenNone<T>(r: Option<seq<T>>)
    ensures Then([], r) == r
  {
    if r.Some? {
      assert [] + r.value == r.value;
    }
  }

  lemma ThenStep<T>(front: seq<T>, x: T, r: Option<seq<T>>)
    ensures Then(front, match r case None => None case Some(rest) => Some([x] + rest)) == Then(front + [x], r)
  {
    if r.Some? {
      assert front + ([x] + r.value) == (front + [x]) + r.value;
    }
  }

  method ParseDebugMap(blob: seq<Byte>, strs: seq<Byte>) returns (r: Option<seq<Loc>>)
    ensures r == ParseDebug(blob, strs)
  {
    hide ReadText;
    if |blob| < 4 {
      return Some([]);
    }
    var count, offset := FromLE(blob[..4]), 4;
    var entries: seq<Loc> := [];
    ThenNone(ParseEntries(blob, strs, 4, count));
    for i := 0 to count
      invariant ParseEntries(blob, strs, 4, count) == Then(entries, ParseEntries(blob, strs, offset, count - i))
    {
      if offset + 20 > |blob| {
        return None;
      }
      var pc, line, column := FromLE(blob[offset..offset + 4]), FromLE(blob[offset + 4..offset + 8]),
        FromLE(blob[offset + 8..offset + 12]);
      match ReadText(blob, strs, offset + 12) {
        case Truncated => return None;
        case Got(file, next) =>
          ThenStep(entries, Loc(pc, line, column, file), ParseEntries(blob, strs, next, count - i - 1));
          entries, offset := entries + [Loc(pc, line, column, file)], next;
      }
    }
    assert entries + [] == entries;
    r := Some(entries);
  }

  method SkipMembers(code: seq<Byte>, strs: seq<Byte>, at: nat, n: nat) returns (next: Option<nat>)
    ensures next == SkipTexts(code, strs, at, n)
  {
    hide ReadText;
    var cursor := at;
    for i := 0 to n
      invariant SkipTexts(code, strs, at, n) == SkipTexts(code, strs, cursor, n - i)
    {
      match ReadText(code, strs, cursor) {
        case Truncated => return None;
        case Got(_, q) => cursor := q;
      }
    }
    next := Some(cursor);
  }

  /** Decode one instruction; only where it ends matters here. */
  method DecodeOne(code: seq<Byte>, strs: seq<Byte>, cursor: nat) returns (next: Option<nat>)
    requires cursor < |code|
    ensures next == Behind(code, strs, cursor)
  {
    hide ReadText, ReadLE;
    match Decode(code, strs, cursor) {
      case Instruction(_, q) => return Some(q);
      case _ =>
    }
    hide Decode;
    var op := code[cursor];
    if op != 53 && op != 54 {
      return SkipForeign(code, strs, cursor);
    }
    match ReadText(code, strs, cursor + 1) {
      case Truncated => next := None;
      case Got(_, q) =>
        match ReadLE(code, q, 4) {
          case Truncated => next := None;
          case Got(count, q1) => next := SkipMembers(code, strs, q1, count);
        }
    }
  }

  /** Decode a code blob to its end; only whether that succeeds matters here. */
  method ValidateCode(code: seq<Byte>, strs: seq<Byte>) returns (ok: bool)
    ensures ok <==> Walk(code, strs, 0)
  {
    hide Behind;
    var cursor := 0;
    while cursor != |code|
      invariant cursor <= |code| && (Walk(code, strs, 0) <==> Walk(code, strs, cursor))
      decreases |code| - cursor
    {
      var next := DecodeOne(code, strs, cursor);
      if next.None? || next.value <= cursor || next.value > |code| {
        return false;
      }
      cursor := next.value;
    }
    ok := true;
  }

  method LoadFunction(s: seq<Byte>, strs: seq<Byte>, w: seq<nat>) returns (r: Option<Func>)
    requires |w| == 6
    ensures r == LoadFunc(s, strs, w)
  {
    hide Walk, ParseDebug;
    var name := NameAt(strs, w[0], w[1]);
    if name.None? || !InRange(s, w[2], w[3]) {
      return None;
    }
    var code := s[w[2]..w[2] + w[3]];
    var ok := ValidateCode(code, strs);
    if !ok {
      return None;
    }
    var debug: Option<seq<Loc>> := Some([]);
    if w[5] > 0 {
      if !InRange(s, w[4], w[5]) {
        return None;
      }
      debug := ParseDebugMap(s[w[4]..w[4] + w[5]], strs);
    }
    r := if debug.None? then None else Some(Func(name.value, code, debug.value));
  }

  method LoadFunctions(s: seq<Byte>, strs: seq<Byte>, at: nat, n: nat) returns (r: Option<seq<Func>>)
    ensures r == LoadFuncs(s, strs, at, n)
  {
    hide LoadFunc, ReadWords;
    var functions, cursor := [], at;
    ThenNone(LoadFuncs(s, strs, at, n));
    for i := 0 to n
      invariant LoadFuncs(s, strs, at, n) == Then(functions, LoadFuncs(s, strs, cursor, n - i))
    {
      match ReadWords(s, cursor, 6) {
        case Truncated => return None;
        case Got(w, next) =>
          assert |w| == 6;
          var f := LoadFunction(s, strs, w);
          if f.None? {
            return None;
          }
          ThenStep(functions, f.value, LoadFuncs(s, strs, next, n - i - 1));
          functions, cursor := functions + [f.value], next;
      }
    }
    assert functions + [] == functions;
    r := Some(functions);
  }

  method LoadPackage(s: seq<Byte>, strs: seq<Byte>, w: seq<nat>) returns (r: Option<Pack>)
    requires |w| == 8
    ensures r == LoadPack(s, strs, w)
  {
    hide Walk, ParseDebug, LoadFuncs;
    var name := NameAt(strs, w[0], w[1]);
    if name.None? || !InRange(s, w[4], FuncDescSize * w[5]) {
      return None;
    }
    var functions := LoadFunctions(s, strs, w[4], w[5]);
    if functions.None? || !InRange(s, w[2], w[3]) {
      return None;
    }
    var init := s[w[2]..w[2] + w[3]];
    var ok := ValidateCode(init, strs);
    if !ok {
      return None;
    }
    var debug: Option<seq<Loc>> := Some([]);
    if w[7] > 0 {
      if !InRange(s, w[6], w[7]) {
        return None;
      }
      debug := ParseDebugMap(s[w[6]..w[6] + w[7]], strs);
    }
    r := if debug.None? then None else Some(Pack(name.value, functions.value, init, debug.value));
  }

  /** All packages of an image, imports first. It fails on everything that is no image. */
  method LoadProgram(s: seq<Byte>) returns (r: Option<seq<Pack>>)
    ensures r.Some? <==> Loading.Loadable(s)
    ensures r.Some? ==> Loading.Contains(s, r.value)
    ensures r == Load(s)
  {
    hide LoadPack, ReadWords, NameAt, Loading.Loadable, Loading.Contains;
    Loading.LoadExactly(s);
    if |s| < HeaderSize || s[..2] != [77, 88] || FromLE(s[2..4]) != Version {
      return None;
    }
    var header := ReadWords(s, 4, 8);
    if header.Truncated? {
      return None;
    }
    var entry := ReadWords(s, header.next, 8);
    if entry.Truncated? {
      return None;
    }
    var h, e := header.value, entry.value;
    assert |h| == 8 && |e| == 8;
    if !InRange(s, h[6], h[7]) {
      return None;
    }
    var strs := s[h[6]..h[6] + h[7]];
    if NameAt(strs, h[0], h[1]).None? || !InRange(s, h[2], PackDescSize * h[3]) || !EntryAgrees(h, e) {
      return None;
    }
    var packages := LoadImports(s, strs, h[2], h[3]);
    if packages.None? {
      return None;
    }
    var main := LoadPackage(s, strs, e);
    r := if main.None? then None else Some(packages.value + [main.value]);
  }

  method LoadImports(s: seq<Byte>, strs: seq<Byte>, at: nat, n: nat) returns (r: Option<seq<Pack>>)
    ensures r == LoadPacks(s, strs, at, n)
  {
    hide LoadPack, ReadWords;
    var packages, cursor := [], at;
    ThenNone(LoadPacks(s, strs, at, n));
    for i := 0 to n
      invariant LoadPacks(s, strs, at, n) == Then(packages, LoadPacks(s, strs, cursor, n - i))
    {
      match ReadWords(s, cursor, 8) {
        case Truncated => return None;
        case Got(w, next) =>
          assert |w| == 8;
          var p := LoadPackage(s, strs, w);
          if p.None? {
            return None;
          }
          ThenStep(packages, p.value, LoadPacks(s, strs, next, n - i - 1));
          packages, cursor := packages + [p.value], next;
      }
    }
    assert packages + [] == packages;
    r := Some(packages);
  }
}
