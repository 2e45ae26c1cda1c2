/** The parser itself: a cursor over the tokens, recursive descent, and loops that fold
    into the left operand. It reads what `Grammar.Parse` says. */
module Parsing {
  import opened Syntax
  import opened Grammar
  import Precedence

  /** A list of which some elements are read and the rest is yet to be. */
  function TypesFrom(ts: seq<Token>, before: seq<TypeTree>, pos: nat): Parsed<seq<TypeTree>>
    requires pos <= |ts|
  {
    if Peek(ts, pos) != Comma then Got(before, pos)
    else
      var rest := TypeList(ts, pos + 1);
      if rest.Failed? then Failed else Got(before + rest.tree, rest.next)
  }

  lemma TypesMore(ts: seq<Token>, before: seq<TypeTree>, pos: nat, next: TypeTree, end: nat)
    requires pos < |ts| && Peek(ts, pos) == Comma && Types(ts, pos + 1) == Got(next, end)
    ensures TypesFrom(ts, before, pos) == TypesFrom(ts, before + [next], end)
  {
    var rest := TypesFrom(ts, [next], end);
    if rest.Got? && Peek(ts, end) == Comma {
      assert before + ([next] + TypeList(ts, end + 1).tree) == before + [next] + TypeList(ts, end + 1).tree;
    }
  }

  function ListFrom(ts: seq<Token>, before: seq<Tree>, pos: nat): Parsed<seq<Tree>>
    requires pos <= |ts|
  {
    if Peek(ts, pos) != Comma then Got(before, pos)
    else
      var rest := List(ts, pos + 1);
      if rest.Failed? then Failed else Got(before + rest.tree, rest.next)
  }

  lemma ListMore(ts: seq<Token>, before: seq<Tree>, pos: nat, next: Tree, end: nat)
    requires pos < |ts| && Peek(ts, pos) == Comma && Parse(ts, pos + 1, 0) == Got(next, end)
    ensures ListFrom(ts, before, pos) == ListFrom(ts, before + [next], end)
  {
    hide Parse;
    var rest := ListFrom(ts, [next], end);
    if rest.Got? && Peek(ts, end) == Comma {
      assert before + ([next] + List(ts, end + 1).tree) == before + [next] + List(ts, end + 1).tree;
    }
  }

  lemma PostfixFrom(ts: seq<Token>, pos: nat)
    requires pos <= |ts|
    ensures
      var first := Parse(ts, pos, 9);
      Parse(ts, pos, 8) == if first.Failed? then Failed else More(ts, first.next, 8, first.tree)
  {
    hide Primary, More;
  }

  /** One round of the postfix loop. */
  lemma PostfixMore(ts: seq<Token>, pos: nat, left: Tree)
    requires pos <= |ts|
    ensures Peek(ts, pos) == Dot ==> More(ts, pos, 8, left)
                                     == if Peek(ts, pos + 1).Word? then
                                       More(ts, pos + 2, 8, MemberOf(left, ts[pos + 1].text)) else Failed
    ensures OpensTypes(ts, pos) ==>
              var types := TypeArguments(ts, pos);
              var args := if types.Failed? then Failed else Arguments(ts, types.next);
              More(ts, pos, 8, left) == if args.Failed? then Failed
                else More(ts, args.next, 8, CallOf(left, types.tree, args.tree))
    ensures Peek(ts, pos) == Open ==>
              var args := Arguments(ts, pos + 1);
              More(ts, pos, 8, left) == if args.Failed? then Failed
                else More(ts, args.next, 8, CallOf(left, [], args.tree))
    ensures Peek(ts, pos) == OpenIndex ==>
              var index := Parse(ts, pos + 1, 0);
              More(ts, pos, 8, left)
              == if index.Got? && Peek(ts, index.next) == CloseIndex then
                More(ts, index.next + 1, 8, IndexOf(left, index.tree)) else Failed
    ensures Peek(ts, pos) !in [Dot, Open, OpenIndex] && !OpensTypes(ts, pos)
      ==> More(ts, pos, 8, left) == Got(left, pos)
  {
    hide Parse, Arguments, TypeArguments, Closes;
  }

  class Parser {
    const tokens: seq<Token>
    var pos: nat

    predicate Valid()
      reads this
    {
      pos <= |tokens|
    }

    constructor (tokens: seq<Token>)
      ensures Valid() && this.tokens == tokens && pos == 0
    {
      this.tokens, pos := tokens, 0;
    }

    /** The outcome of a method as the grammar gives it. */
    function Outcome<T>(r: Option<T>): Parsed<T>
      reads this
    {
      if r.Some? then Got(r.value, pos) else Failed
    }

    function Cur(): Token
      reads this
    {
      Peek(tokens, pos)
    }

    method ExpectName() returns (r: Option<string>)
      requires Valid()
      modifies this
      ensures Valid() && r == (if Peek(tokens, old(pos)).Word? then Some(tokens[old(pos)].text) else None)
      ensures pos == (if r.Some? then old(pos) + 1 else old(pos))
    {
      match Cur()
      case Word(n) => r := Some(n); pos := pos + 1;
      case _ => r := None;
    }

    /** Look ahead from a `<` over everything up to the next semicolon. */
    method LooksLikeCallTypeArgs() returns (yes: bool)
      requires Valid()
      ensures yes <==> Cur() == Infix(Less) && Precedence.Closed(tokens, pos + 1, 1)
      ensures yes == OpensTypes(tokens, pos)
    {
      hide Precedence.Closed;
      Precedence.ClosesExactly(tokens, pos + 1, 1);
      if Cur() != Infix(Less) {
        return false;
      }
      var i, depth := pos + 1, 1;
      while i < |tokens| && depth > 0
        invariant depth > 0 && i <= |tokens| && Closes(tokens, i, depth) == Closes(tokens, pos + 1, 1)
        decreases |tokens| - i
      {
        var t := tokens[i];
        if t == Infix(Less) {
          depth := depth + 1;
        } else if t == Infix(Greater) {
          depth := depth - 1;
          if depth == 0 {
            return i + 1 < |tokens| && tokens[i + 1] == Open;
          }
        } else if t == End || t == Semicolon {
          return false;
        }
        i := i + 1;
      }
      yes := false;
    }

    method ParseType() returns (r: Option<TypeTree>)
      requires Valid()
      modifies this
      ensures Valid() && Outcome(r) == Types(tokens, old(pos))
      decreases |tokens| - pos
    {
      if Cur() == OpenIndex {
        pos := pos + 1;
        var inner := ParseType();
        if inner.None? || Cur() != CloseIndex {
          return None;
        }
        pos := pos + 1;
        return Some(TypeArray(inner.value));
      }
      var n := ExpectName();
      r := if n.Some? then Some(TypeNamed(n.value)) else None;
    }

    method ParseTypes() returns (r: Option<seq<TypeTree>>)
      requires Valid()
      modifies this
      ensures Valid() && Outcome(r) == TypeList(tokens, old(pos))
    {
      var first := ParseType();
      if first.None? {
        return None;
      }
      var types := [first.value];
      while Cur() == Comma
        invariant Valid() && old(pos) < pos && TypeList(tokens, old(pos)) == TypesFrom(tokens, types, pos)
        decreases |tokens| - pos
      {
        ghost var comma := pos;
        pos := pos + 1;
        var next := ParseType();
        if next.None? {
          return None;
        }
        TypesMore(tokens, types, comma, next.value, pos);
        types := types + [next.value];
      }
      r := Some(types);
    }

    method ParseExpression() returns (r: Option<Tree>)
      requires Valid()
      modifies this
      ensures Valid() && Outcome(r) == Parse(tokens, old(pos), 0)
      decreases |tokens| - pos, 10
    {
      hide OpensTypes;
      var left := ParseBinary(1);
      if left.None? {
        return None;
      }
      match Cur()
      case Arrow(channel) =>
        pos := pos + 1;
        var name := ExpectName();
        r := if name.Some? then Some(InsertInto(channel, left.value, name.value)) else None;
      case _ => r := left;
    }

    /** One binary level; the six differ only in their operators. */
    method ParseBinary(k: nat) returns (r: Option<Tree>)
      requires Valid() && 1 <= k <= 6
      modifies this
      ensures Valid() && Outcome(r) == Parse(tokens, old(pos), k)
      ensures k == 1 && r.Some? ==> Precedence.ReadAs(tokens, old(pos), r.value, pos) && !Cur().Infix?
      decreases |tokens| - pos, 10 - k, 0
    {
      hide OpensTypes, Precedence.ReadAs;
      BoundAsRead(pos);
      var first := Operand(k);
      if first.None? {
        return None;
      }
      var left := first.value;
      while Cur().Infix? && Strength(Cur().op) == k
        invariant Valid() && old(pos) < pos && Parse(tokens, old(pos), k) == More(tokens, pos, k, left)
        decreases |tokens| - pos
      {
        var op := Cur().op;
        pos := pos + 1;
        var right := Operand(k);
        if right.None? {
          return None;
        }
        left := InfixOf(op, left, right.value);
      }
      r := Some(left);
    }

    lemma BoundAsRead(from: nat)
      requires from <= |tokens|
      ensures
        var r := Parse(tokens, from, 1);
        r.Got? ==> Precedence.ReadAs(tokens, from, r.tree, r.next) && !Peek(tokens, r.next).Infix?
    {
      var r := Parse(tokens, from, 1);
      if r.Got? {
        Precedence.BindsExactly(tokens, from, r.tree, r.next);
      }
    }

    method Operand(k: nat) returns (r: Option<Tree>)
      requires Valid() && 1 <= k <= 6
      modifies this
      ensures Valid() && Outcome(r) == Parse(tokens, old(pos), k + 1)
      decreases |tokens| - pos, 9 - k, 1
    {
      if k == 6 {
        r := ParseUnary();
      } else {
        r := ParseBinary(k + 1);
      }
    }

    method ParseUnary() returns (r: Option<Tree>)
      requires Valid()
      modifies this
      ensures Valid() && Outcome(r) == Parse(tokens, old(pos), 7)
      decreases |tokens| - pos, 3, 0
    {
      hide OpensTypes;
      var prefix := PrefixAt(Cur());
      if prefix.Some? {
        pos := pos + 1;
        var operand := ParseUnary();
        r := if operand.None? then None else Some(PrefixOf(prefix.value, operand.value));
      } else {
        r := ParsePostfix();
      }
    }

    method ParsePostfix() returns (r: Option<Tree>)
      requires Valid()
      modifies this
      ensures Valid() && Outcome(r) == Parse(tokens, old(pos), 8)
      decreases |tokens| - pos, 2, 0
    {
      hide Parse, More, OpensTypes, Primary, Arguments, TypeArguments;
      PostfixFrom(tokens, pos);
      var first := ParsePrimary();
      if first.None? {
        return None;
      }
      var left := first.value;
      while true
        invariant Valid() && old(pos) < pos && Parse(tokens, old(pos), 8) == More(tokens, pos, 8, left)
        decreases |tokens| - pos
      {
        var typed := LooksLikeCallTypeArgs();
        PostfixMore(tokens, pos, left);
        if Cur() == Dot {
          pos := pos + 1;
          var member := ExpectName();
          if member.None? {
            return None;
          }
          left := MemberOf(left, member.value);
        } else if typed {
          var types := ParseTypeArguments();
          if types.None? {
            return None;
          }
          var args := ParseArguments();
          if args.None? {
            return None;
          }
          left := CallOf(left, types.value, args.value);
        } else if Cur() == Open {
          pos := pos + 1;
          var args := ParseArguments();
          if args.None? {
            return None;
          }
          left := CallOf(left, [], args.value);
        } else if Cur() == OpenIndex {
          pos := pos + 1;
          var index := ParseExpression();
          if index.None? || Cur() != CloseIndex {
            return None;
          }
          pos := pos + 1;
          left := IndexOf(left, index.value);
        } else {
          return Some(left);
        }
      }
    }

    /** From `<` up to the opening parenthesis after `>`. */
    method ParseTypeArguments() returns (r: Option<seq<TypeTree>>)
      requires Valid() && Cur() == Infix(Less)
      modifies this
      ensures Valid() && Outcome(r) == TypeArguments(tokens, old(pos))
    {
      pos := pos + 1;
      r := Some([]);
      if Cur() != Infix(Greater) {
        r := ParseTypes();
      }
      if r.None? || Cur() != Infix(Greater) || Peek(tokens, pos + 1) != Open {
        return None;
      }
      pos := pos + 2;
    }

    method ParseArguments() returns (r: Option<seq<Tree>>)
      requires Valid()
      modifies this
      ensures Valid() && Outcome(r) == Arguments(tokens, old(pos))
      decreases |tokens| - pos, 11
    {
      if Cur() == Close {
        pos := pos + 1;
        return Some([]);
      }
      var first := ParseExpression();
      if first.None? {
        return None;
      }
      var args := [first.value];
      while Cur() == Comma
        invariant Valid() && old(pos) < pos && List(tokens, old(pos)) == ListFrom(tokens, args, pos)
        decreases |tokens| - pos
      {
        ghost var comma := pos;
        pos := pos + 1;
        var next := ParseExpression();
        if next.None? {
          return None;
        }
        ListMore(tokens, args, comma, next.value, pos);
        args := args + [next.value];
      }
      if Cur() != Close {
        return None;
      }
      pos := pos + 1;
      r := Some(args);
    }

    method ParsePrimary() returns (r: Option<Tree>)
      requires Valid()
      modifies this
      ensures Valid() && Outcome(r) == Parse(tokens, old(pos), 9)
      decreases |tokens| - pos, 1, 0
    {
      match Cur() {
        case Digits(n) =>
          pos := pos + 1;
          r := Some(Number(n));
        case Word(n) =>
          pos := pos + 1;
          if Cur() != Scope {
            return Some(Identifier(n));
          }
          pos := pos + 1;
          var item := ExpectName();
          r := if item.None? then None else Some(EnumItem(n, item.value));
        case Open =>
          pos := pos + 1;
          var inner := ParseExpression();
          if inner.None? || Cur() != Close {
            return None;
          }
          pos := pos + 1;
          r := inner;
        case _ => r := None;
      }
    }
  }
}
