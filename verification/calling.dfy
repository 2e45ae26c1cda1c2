/** How the loader learns a function's parameters: from the stores its code begins with. */
module Calling {
  import opened Bytes
  import opened Syntax
  import opened Machine
  import opened Layout
  import opened Encoding
  import opened Listing

  const StoreOpcode: Byte := 13

  /** The names stored by the instructions from `pc` on, up to the first that is no store. */
  function StoredNames(code: seq<Byte>, strs: seq<Byte>, pc: nat): seq<string>
    decreases |code| - pc
  {
    if pc + 9 <= |code| && code[pc] == StoreOpcode then
      match ReadText(code, strs, pc + 1)
      case Truncated => []
      case Got(name, _) => [name] + StoredNames(code, strs, pc + 9)
    else []
  }

  /** The parameters of a code blob: the prologue binds the last argument first. */
  method ScanParameters(code: seq<Byte>, strs: seq<Byte>) returns (params: seq<string>)
    ensures params == Reverse(StoredNames(code, strs, 0))
  {
    var names, pc := [], 0;
    while pc + 9 <= |code| && code[pc] == StoreOpcode
      invariant StoredNames(code, strs, 0) == names + StoredNames(code, strs, pc)
      decreases |code| - pc
    {
      var offset, length := FromLE(code[pc + 1..pc + 5]), FromLE(code[pc + 5..pc + 9]);
      if offset > |strs| || length > |strs| - offset {
        break;
      }
      names := names + [ToText(strs[offset..offset + length])];
      pc := pc + 9;
    }
    assert names + [] == names;
    params := Reverse(names);
  }

  // ---- code that does not begin with a store ----

  predicate NoStore(list: seq<Instr>) {
    list == [] || !list[0].Store?
  }

  lemma {:induction false} ExprNoStore(e: Expr, at: nat)
    ensures ExprCode(e, at) != [] && NoStore(ExprCode(e, at))
    decreases e, 1
  {
    match e
    case Apply(_, operands) => ExprsNoStore(operands, at);
    case Logical(_, left, _) => ExprNoStore(left, at);
    case Call(callee, _) => ExprNoStore(callee, at);
    case _ =>
  }

  lemma {:induction false} ExprsNoStore(es: seq<Expr>, at: nat)
    ensures NoStore(ExprsCode(es, at))
    decreases es, 0
  {
    if es != [] {
      ExprNoStore(es[0], at);
    }
  }

  lemma {:induction false} StmtNoStore(s: Stmt, at: nat, brk: nat)
    ensures NoStore(StmtCode(s, at, brk))
    decreases s, 1
  {
    match s
    case Assign(ts, addAssign, value) =>
      if !(addAssign && |ts| == 1 && ts[0].To?) {
        ExprNoStore(value, at);
      }
    case ExprStmt(e) => ExprNoStore(e, at);
    case Return(e) => ExprNoStore(e, at);
    case Break =>
    case Block(body) => BlockNoStore(body, at, brk);
    case If(chain) => ChainNoStore(chain, at, at + SizeChain(chain), brk);
    case Loop(cond, body) =>
      if cond.Some? {
        ExprNoStore(cond.value, at);
      }
      BlockNoStore(body, at + SizeCond(cond), at + SizeStmt(s));
    case Match(scrutinee, _) => ExprNoStore(scrutinee, at);
    case Monitor(_, _, _) =>
  }

  lemma {:induction false} BlockNoStore(ss: seq<Stmt>, at: nat, brk: nat)
    ensures NoStore(BlockCode(ss, at, brk))
    decreases ss, 0
  {
    if ss != [] {
      StmtNoStore(ss[0], at, brk);
      BlockNoStore(ss[1..], at + SizeStmt(ss[0]), brk);
    }
  }

  lemma {:induction false} ChainNoStore(ch: Chain, at: nat, end: nat, brk: nat)
    ensures NoStore(ChainCode(ch, at, end, brk))
    decreases ch, 0
  {
    match ch
    case Else(els) => BlockNoStore(els, at, brk);
    case Elif(cond, _, _, _) => ExprNoStore(cond, at);
  }

  // ---- scanning inverts the prologue ----

  /** A store is decoded exactly where a store opcode stands. */
  lemma StoreByte(code: seq<Byte>, strs: seq<Byte>, pc: nat, i: Instr, next: nat)
    requires Decode(code, strs, pc) == Instruction(i, next)
    ensures pc < |code| && (code[pc] == StoreOpcode <==> i.Store?)
    ensures i.Store? ==> ReadText(code, strs, pc + 1) == Got(i.name, next)
  {
  }

  lemma {:induction false} StoredPrologue(code: seq<Byte>, strs: seq<Byte>, at: nat, params: seq<string>,
      rest: seq<Instr>)
    requires ListedAt(View(code, strs), at, PrologueCode(params) + rest) && rest != [] && NoStore(rest)
    ensures StoredNames(code, strs, at) == Reverse(params)
    decreases |params|
  {
    var c := View(code, strs);
    if params == [] {
      assert PrologueCode(params) + rest == rest;
      StoreByte(code, strs, at, rest[0], at + Width(rest[0]));
    } else {
      var last, front := params[|params| - 1], params[..|params| - 1];
      Regroup([Store(last)], PrologueCode(front), rest);
      Peel(c, at, Store(last), PrologueCode(front) + rest);
      StoreByte(code, strs, at, Store(last), at + 9);
      StoredPrologue(code, strs, at + 9, front, rest);
      ReverseSnoc(front, last);
      assert params == front + [last];
    }
  }

  lemma {:induction false} ReverseSnoc<T>(s: seq<T>, x: T)
    ensures Reverse(s + [x]) == [x] + Reverse(s)
  {
    if s == [] {
      assert s + [x] == [x];
    } else {
      ReverseSnoc(s[1..], x);
      assert (s + [x])[1..] == s[1..] + [x];
    }
  }

  lemma {:induction false} ReverseTwice<T>(s: seq<T>)
    ensures Reverse(Reverse(s)) == s
  {
    if s != [] {
      ReverseSnoc(Reverse(s[1..]), s[0]);
      ReverseTwice(s[1..]);
    }
  }

  /** The loader finds exactly the declared parameters, whatever the body is. */
  lemma ParametersRecovered(code: seq<Byte>, strs: seq<Byte>, f: Function)
    requires ListedAt(View(code, strs), 0, FunctionCode(f))
    ensures Reverse(StoredNames(code, strs, 0)) == f.params
  {
    var start := 9 * |f.params|;
    var body := BlockCode(f.body, start, start + SizeBlock(f.body));
    BlockNoStore(f.body, start, start + SizeBlock(f.body));
    StoredPrologue(code, strs, 0, f.params, body + [Push(NullLit), Ret]);
    ReverseTwice(f.params);
  }
}
