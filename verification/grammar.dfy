/** The expression grammar: what the parser reads from a token list, how a tree is written
    with as few parentheses as possible, and when reading gives the tree back. */
module Grammar {
  import opened Syntax

  datatype Op = Or | And | Equal | Unequal | Less | Greater | AtMost | AtLeast | Plus | Minus | Star | Slash | Percent

  /** `Word` is an identifier or a keyword that may stand for one; `Other` is any token no
      expression of this model contains. */
  datatype Token =
    | Digits(value: nat)
    | Word(text: string)
    | Infix(op: Op)
    | Bang | Tilde | Dot | Open | Close | OpenIndex | CloseIndex | Comma | Scope
    | Arrow(channel: bool)
    | Semicolon | End
    | Other(what: string)

  datatype Prefix = Invert | Complement | Negate

  datatype TypeTree = TypeNamed(name: string) | TypeArray(element: TypeTree)

  datatype Tree =
    | Number(value: nat)
    | Identifier(name: string)
    | EnumItem(name: string, item: string)
    | PrefixOf(prefix: Prefix, operand: Tree)
    | InfixOf(op: Op, left: Tree, right: Tree)
    | CallOf(callee: Tree, types: seq<TypeTree>, args: seq<Tree>)
    | IndexOf(base: Tree, index: Tree)
    | MemberOf(base: Tree, member: string)
    | InsertInto(channel: bool, inserted: Tree, name: string)

  datatype Parsed<T> = Failed | Got(tree: T, next: nat)

  // ---- reading ----

  /** Binding strength: 0 inserts, 1 to 6 the binary operators, 7 prefixes, 8 postfixes, 9 the rest. */
  function Strength(op: Op): (k: nat)
    ensures 1 <= k <= 6
  {
    match op
    case Or => 1
    case And => 2
    case Equal | Unequal => 3
    case Less | Greater | AtMost | AtLeast => 4
    case Plus | Minus => 5
    case Star | Slash | Percent => 6
  }

  function Peek(ts: seq<Token>, pos: nat): Token {
    if pos < |ts| then ts[pos] else End
  }

  /** Whether a `<` whose scan has come to `i` closes with `>` just before `(`. The scan
      looks at every token up to the next semicolon. */
  predicate Closes(ts: seq<Token>, i: nat, depth: nat)
    decreases |ts| - i
  {
    if i >= |ts| then false
    else
      match ts[i]
      case Infix(Less) => Closes(ts, i + 1, depth + 1)
      case Infix(Greater) => if depth <= 1 then Peek(ts, i + 1) == Open else Closes(ts, i + 1, depth - 1)
      case Semicolon => false
      case End => false
      case _ => Closes(ts, i + 1, depth)
  }

  /** A `<` that is taken for the beginning of type arguments. */
  predicate OpensTypes(ts: seq<Token>, pos: nat) {
    Peek(ts, pos) == Infix(Less) && Closes(ts, pos + 1, 1)
  }

  function PrefixAt(t: Token): Option<Prefix> {
    match t
    case Bang => Some(Invert)
    case Tilde => Some(Complement)
    case Infix(Minus) => Some(Negate)
    case _ => None
  }

  function Types(ts: seq<Token>, pos: nat): (r: Parsed<TypeTree>)
    requires pos <= |ts|
    ensures r.Got? ==> pos < r.next <= |ts|
    decreases |ts| - pos
  {
    match Peek(ts, pos)
    case Word(n) => Got(TypeNamed(n), pos + 1)
    case OpenIndex =>
      var inner := Types(ts, pos + 1);
      if inner.Got? && Peek(ts, inner.next) == CloseIndex then Got(TypeArray(inner.tree), inner.next + 1) else Failed
    case _ => Failed
  }

  function TypeList(ts: seq<Token>, pos: nat): (r: Parsed<seq<TypeTree>>)
    requires pos <= |ts|
    ensures r.Got? ==> pos < r.next <= |ts| && r.tree != []
    decreases |ts| - pos
  {
    var first := Types(ts, pos);
    if first.Failed? then Failed
    else if Peek(ts, first.next) != Comma then Got([first.tree], first.next)
    else
      var rest := TypeList(ts, first.next + 1);
      if rest.Failed? then Failed else Got([first.tree] + rest.tree, rest.next)
  }

  /** From `<` up to the opening parenthesis after `>`. */
  function TypeArguments(ts: seq<Token>, pos: nat): (r: Parsed<seq<TypeTree>>)
    requires pos < |ts|
    ensures r.Got? ==> pos < r.next <= |ts| && (r.tree == [] ==> Peek(ts, pos + 1) == Infix(Greater))
  {
    var types := if Peek(ts, pos + 1) == Infix(Greater) then Got([], pos + 1) else TypeList(ts, pos + 1);
    if types.Failed? || Peek(ts, types.next) != Infix(Greater) || Peek(ts, types.next + 1) != Open then Failed
    else Got(types.tree, types.next + 2)
  }

  /** An expression of strength at least `k`, and where it ends. */
  function Parse(ts: seq<Token>, pos: nat, k: nat): (r: Parsed<Tree>)
    requires pos <= |ts| && k <= 9
    ensures r.Got? ==> pos < r.next <= |ts|
    decreases |ts| - pos, 10 - k
  {
    if k == 9 then Primary(ts, pos)
    else if k == 7 && PrefixAt(Peek(ts, pos)).Some? then
      var operand := Parse(ts, pos + 1, 7);
      if operand.Failed? then Failed else Got(PrefixOf(PrefixAt(Peek(ts, pos)).value, operand.tree), operand.next)
    else
      var first := Parse(ts, pos, k + 1);
      if first.Failed? then Failed else More(ts, first.next, k, first.tree)
  }

  /** What follows an operand at strength `k`. */
  function More(ts: seq<Token>, pos: nat, k: nat, left: Tree): (r: Parsed<Tree>)
    requires pos <= |ts|
    ensures r.Got? ==> pos <= r.next <= |ts|
    decreases |ts| - pos, 0
  {
    var t := Peek(ts, pos);
    if k == 0 && t.Arrow? then
      if Peek(ts, pos + 1).Word? then Got(InsertInto(t.channel, left, ts[pos + 1].text), pos + 2) else Failed
    else if 1 <= k <= 6 && t.Infix? && Strength(t.op) == k then
      var right := Parse(ts, pos + 1, k + 1);
      if right.Failed? then Failed else More(ts, right.next, k, InfixOf(t.op, left, right.tree))
    else if k == 8 then
      if t == Dot then
        if Peek(ts, pos + 1).Word? then More(ts, pos + 2, 8, MemberOf(left, ts[pos + 1].text)) else Failed
      else if OpensTypes(ts, pos) then
        var types := TypeArguments(ts, pos);
        if types.Failed? then Failed
        else
          var args := Arguments(ts, types.next);
          if args.Failed? then Failed else More(ts, args.next, 8, CallOf(left, types.tree, args.tree))
      else if t == Open then
        var args := Arguments(ts, pos + 1);
        if args.Failed? then Failed else More(ts, args.next, 8, CallOf(left, [], args.tree))
      else if t == OpenIndex then
        var index := Parse(ts, pos + 1, 0);
        if index.Got? && Peek(ts, index.next) == CloseIndex then More(ts, index.next + 1, 8, IndexOf(left, index.tree))
          else Failed
      else Got(left, pos)
    else Got(left, pos)
  }

  /** Arguments up to and with the closing parenthesis. */
  function Arguments(ts: seq<Token>, pos: nat): (r: Parsed<seq<Tree>>)
    requires pos <= |ts|
    ensures r.Got? ==> pos < r.next <= |ts|
    decreases |ts| - pos, 12
  {
    if Peek(ts, pos) == Close then Got([], pos + 1)
    else
      var list := List(ts, pos);
      if list.Got? && Peek(ts, list.next) == Close then Got(list.tree, list.next + 1) else Failed
  }

  function List(ts: seq<Token>, pos: nat): (r: Parsed<seq<Tree>>)
    requires pos <= |ts|
    ensures r.Got? ==> pos < r.next <= |ts| && r.tree != []
    decreases |ts| - pos, 11
  {
    var first := Parse(ts, pos, 0);
    if first.Failed? then Failed
    else if Peek(ts, first.next) != Comma then Got([first.tree], first.next)
    else
      var rest := List(ts, first.next + 1);
      if rest.Failed? then Failed else Got([first.tree] + rest.tree, rest.next)
  }

  function Primary(ts: seq<Token>, pos: nat): (r: Parsed<Tree>)
    requires pos <= |ts|
    ensures r.Got? ==> pos < r.next <= |ts|
    decreases |ts| - pos, 0
  {
    match Peek(ts, pos)
    case Digits(n) => Got(Number(n), pos + 1)
    case Word(n) =>
      if Peek(ts, pos + 1) != Scope then Got(Identifier(n), pos + 1)
      else if Peek(ts, pos + 2).Word? then Got(EnumItem(n, ts[pos + 2].text), pos + 3)
      else Failed
    case Open =>
      var inner := Parse(ts, pos + 1, 0);
      if inner.Got? && Peek(ts, inner.next) == Close then Got(inner.tree, inner.next + 1) else Failed
    case _ => Failed
  }

  // ---- writing ----

  function Rank(e: Tree): (k: nat)
    ensures k <= 9
  {
    match e
    case InsertInto(_, _, _) => 0
    case InfixOf(op, _, _) => Strength(op)
    case PrefixOf(_, _) => 7
    case CallOf(_, _, _) => 8
    case IndexOf(_, _) => 8
    case MemberOf(_, _) => 8
    case _ => 9
  }

  function PrefixToken(p: Prefix): Token {
    match p case Invert => Bang case Complement => Tilde case Negate => Infix(Minus)
  }

  /** The tokens of a tree where strength `k` is wanted. Type arguments are not written. */
  function Write(e: Tree, k: nat): (r: seq<Token>)
    ensures r != []
    decreases e, if Rank(e) < k then 1 else 0
  {
    if Rank(e) < k then [Open] + Write(e, 0) + [Close]
    else
      match e
      case Number(n) => [Digits(n)]
      case Identifier(n) => [Word(n)]
      case EnumItem(n, i) => [Word(n), Scope, Word(i)]
      case PrefixOf(p, x) => [PrefixToken(p)] + Write(x, 7)
      case InfixOf(op, l, r) => Write(l, Strength(op)) + [Infix(op)] + Write(r, Strength(op) + 1)
      case CallOf(f, _, args) => Write(f, 8) + [Open] + WriteList(args) + [Close]
      case IndexOf(b, i) => Write(b, 8) + [OpenIndex] + Write(i, 0) + [CloseIndex]
      case MemberOf(b, m) => Write(b, 8) + [Dot, Word(m)]
      case InsertInto(c, x, n) => Write(x, 1) + [Arrow(c), Word(n)]
  }

  function WriteList(es: seq<Tree>): seq<Token>
    decreases es, 0
  {
    if es == [] then [] else if |es| == 1 then Write(es[0], 0) else Write(es[0], 0) + [Comma] + WriteList(es[1..])
  }

  /** No call in the tree has type arguments. */
  predicate Untyped(e: Tree)
    decreases e, 1
  {
    match e
    case PrefixOf(_, x) => Untyped(x)
    case InfixOf(_, l, r) => Untyped(l) && Untyped(r)
    case CallOf(f, ts, args) => ts == [] && Untyped(f) && AllUntyped(args)
    case IndexOf(b, i) => Untyped(b) && Untyped(i)
    case MemberOf(b, _) => Untyped(b)
    case InsertInto(_, x, _) => Untyped(x)
    case _ => true
  }

  predicate AllUntyped(es: seq<Tree>)
    decreases es, 0
  {
    es == [] || (Untyped(es[0]) && AllUntyped(es[1..]))
  }

  // ---- reading back ----

  ghost predicate At(ts: seq<Token>, pos: nat, part: seq<Token>) {
    pos + |part| <= |ts| && ts[pos..pos + |part|] == part
  }

  lemma AtParts(ts: seq<Token>, pos: nat, a: seq<Token>, b: seq<Token>)
    requires At(ts, pos, a + b)
    ensures At(ts, pos, a) && At(ts, pos + |a|, b)
  {
    assert ts[pos..pos + |a|] == (a + b)[..|a|] == a;
    assert ts[pos + |a|..pos + |a| + |b|] == (a + b)[|a|..] == b;
  }

  lemma AtFirst(ts: seq<Token>, pos: nat, a: seq<Token>)
    requires At(ts, pos, a) && a != []
    ensures pos < |ts| && Peek(ts, pos) == ts[pos] == a[0]
  {
    assert ts[pos..pos + |a|][0] == a[0];
  }

  lemma AtFits(ts: seq<Token>, pos: nat, a: seq<Token>)
    requires At(ts, pos, a)
    ensures pos + |a| <= |ts|
  {
  }

  /** No `<` in this stretch is taken for type arguments. */
  ghost predicate Clear(ts: seq<Token>, from: nat, to: nat) {
    forall p | from <= p < to :: !OpensTypes(ts, p)
  }

  /** The token here does not go on with an expression of strength `k`. */
  predicate Quiet(ts: seq<Token>, pos: nat, k: nat) {
    var t := Peek(ts, pos);
    && t != Scope && (k <= 8 ==> t != Dot && t != Open && t != OpenIndex && !OpensTypes(ts, pos))
    && (t.Infix? ==> Strength(t.op) < k) && (k == 0 ==> !t.Arrow?)
  }

  lemma QuietMore(ts: seq<Token>, pos: nat, k: nat, e: Tree)
    requires pos <= |ts| && Quiet(ts, pos, k)
    ensures More(ts, pos, k, e) == Got(e, pos)
  {
  }

  lemma NothingMore(ts: seq<Token>, pos: nat, k: nat, e: Tree)
    requires pos <= |ts|
    ensures k == 7 || k == 9 ==> More(ts, pos, k, e) == Got(e, pos)
  {
  }

  /** A tree of strength 8 or more begins with no prefix. */
  lemma {:induction false} NoPrefix(e: Tree, k: nat)
    requires k >= 8 || (k == 7 && Rank(e) != 7)
    ensures PrefixAt(Write(e, k)[0]).None?
    decreases e
  {
    if Rank(e) >= k {
      match e
      case CallOf(f, _, _) => NoPrefix(f, 8);
      case IndexOf(b, _) => NoPrefix(b, 8);
      case MemberOf(b, _) => NoPrefix(b, 8);
      case _ =>
    }
  }

  /** Reading at strength `k` what was written there leaves the reader behind the tree. */
  lemma {:induction false} Eats(ts: seq<Token>, pos: nat, e: Tree, k: nat)
    requires 1 <= k <= 9 && Untyped(e) && At(ts, pos, Write(e, k))
    requires Quiet(ts, pos + |Write(e, k)|, k + 1) && Clear(ts, pos, pos + |Write(e, k)|)
    ensures Parse(ts, pos, k) == More(ts, pos + |Write(e, k)|, k, e)
    decreases |Write(e, k)|, 9 - k, 1
  {
    hide At, Clear, Quiet, OpensTypes, Parse, More, Primary, Untyped;
    AtFits(ts, pos, Write(e, k));
    NothingMore(ts, pos + |Write(e, k)|, k, e);
    if Rank(e) == k {
      match e {
        case PrefixOf(_, _) => PrefixEaten(ts, pos, e);
        case InfixOf(_, _, _) => InfixEaten(ts, pos, e);
        case CallOf(_, _, _) => CallEaten(ts, pos, e);
        case IndexOf(_, _) => IndexEaten(ts, pos, e);
        case MemberOf(_, _) => MemberEaten(ts, pos, e);
        case _ => LeafEaten(ts, pos, e);
      }
    } else if k == 9 {
      GroupEaten(ts, pos, e);
    } else {
      StrongerEaten(ts, pos, e, k);
    }
  }

  lemma {:induction false} LeafEaten(ts: seq<Token>, pos: nat, e: Tree)
    requires (e.Number? || e.Identifier? || e.EnumItem?) && At(ts, pos, Write(e, 9))
      && Quiet(ts, pos + |Write(e, 9)|, 10)
    ensures Parse(ts, pos, 9) == Got(e, pos + |Write(e, 9)|)
  {
    hide OpensTypes, More;
    var w := Write(e, 9);
    forall i | 0 <= i < |w|
      ensures Peek(ts, pos + i) == w[i]
    {
      assert ts[pos..pos + |w|][i] == w[i];
    }
    assert Peek(ts, pos) == w[0];
    if e.EnumItem? {
      assert Peek(ts, pos + 1) == w[1] && Peek(ts, pos + 2) == w[2];
    }
    assert Primary(ts, pos) == Got(e, pos + |w|);
  }

  lemma {:induction false} GroupEaten(ts: seq<Token>, pos: nat, e: Tree)
    requires Rank(e) < 9 && Untyped(e) && At(ts, pos, Write(e, 9)) && Clear(ts, pos, pos + |Write(e, 9)|)
    ensures Parse(ts, pos, 9) == Got(e, pos + |Write(e, 9)|)
    decreases |Write(e, 9)|, 0, 0
  {
    hide At, OpensTypes, Untyped, Write;
    var inner := Write(e, 0);
    GroupWritten(e, 9);
    AtGroup(ts, pos, inner);
    Whole(ts, pos + 1, e);
  }

  lemma GroupWritten(e: Tree, k: nat)
    requires Rank(e) < k
    ensures Write(e, k) == [Open] + Write(e, 0) + [Close]
  {
  }

  lemma AtGroup(ts: seq<Token>, pos: nat, inner: seq<Token>)
    requires At(ts, pos, [Open] + inner + [Close])
    ensures Peek(ts, pos) == Open && At(ts, pos + 1, inner) && Peek(ts, pos + 1 + |inner|) == Close
  {
    hide At;
    AtParts(ts, pos, [Open] + inner, [Close]);
    AtParts(ts, pos, [Open], inner);
    AtFirst(ts, pos, [Open]);
    AtFirst(ts, pos + 1 + |inner|, [Close]);
  }

  lemma {:induction false} StrongerEaten(ts: seq<Token>, pos: nat, e: Tree, k: nat)
    requires 1 <= k <= 8 && Rank(e) != k && Untyped(e) && At(ts, pos, Write(e, k))
    requires Quiet(ts, pos + |Write(e, k)|, k + 1) && Clear(ts, pos, pos + |Write(e, k)|)
    ensures Parse(ts, pos, k) == More(ts, pos + |Write(e, k)|, k, e)
    decreases |Write(e, k)|, 9 - k, 0
  {
    hide At, Clear, OpensTypes, More, Untyped, Write, Primary;
    var end := pos + |Write(e, k)|;
    SameWriting(e, k);
    AtFits(ts, pos, Write(e, k));
    QuietStill(ts, end, k + 1);
    Eats(ts, pos, e, k + 1);
    QuietMore(ts, end, k + 1, e);
    if k == 7 {
      NoPrefix(e, 7);
      AtFirst(ts, pos, Write(e, 7));
    }
  }

  lemma SameWriting(e: Tree, k: nat)
    requires Rank(e) != k
    ensures Write(e, k) == Write(e, k + 1)
  {
  }

  lemma QuietStill(ts: seq<Token>, pos: nat, k: nat)
    requires Quiet(ts, pos, k)
    ensures Quiet(ts, pos, k + 1)
  {
  }

  lemma {:induction false} PrefixEaten(ts: seq<Token>, pos: nat, e: Tree)
    requires e.PrefixOf? && Untyped(e) && At(ts, pos, Write(e, 7))
    requires Quiet(ts, pos + |Write(e, 7)|, 8) && Clear(ts, pos, pos + |Write(e, 7)|)
    ensures Parse(ts, pos, 7) == Got(e, pos + |Write(e, 7)|)
    decreases |Write(e, 7)|, 2, 0
  {
    hide At, OpensTypes, Quiet, Primary;
    var t, inner := [PrefixToken(e.prefix)], Write(e.operand, 7);
    assert Write(e, 7) == t + inner;
    AtParts(ts, pos, t, inner);
    AtFirst(ts, pos, t);
    Eats(ts, pos + 1, e.operand, 7);
  }

  lemma {:induction false} InfixEaten(ts: seq<Token>, pos: nat, e: Tree)
    requires e.InfixOf? && Untyped(e) && At(ts, pos, Write(e, Strength(e.op)))
    requires Quiet(ts, pos + |Write(e, Strength(e.op))|, Strength(e.op) + 1)
    requires Clear(ts, pos, pos + |Write(e, Strength(e.op))|)
    ensures Parse(ts, pos, Strength(e.op)) == More(ts, pos + |Write(e, Strength(e.op))|, Strength(e.op), e)
    decreases |Write(e, Strength(e.op))|, 9 - Strength(e.op), 0
  {
    hide At, OpensTypes, Parse, Primary, Untyped, Write, Strength;
    var op, k := e.op, Strength(e.op);
    var l, r := Write(e.left, k), Write(e.right, k + 1);
    InfixWritten(e);
    AtParts(ts, pos, l + [Infix(op)], r);
    AtParts(ts, pos, l, [Infix(op)]);
    AtFirst(ts, pos + |l|, [Infix(op)]);
    Eats(ts, pos, e.left, k);
    var end := pos + |l| + 1 + |r|;
    QuietStill(ts, end, k + 1);
    Eats(ts, pos + |l| + 1, e.right, k + 1);
    QuietMore(ts, end, k + 1, e.right);
  }

  lemma InfixWritten(e: Tree)
    requires e.InfixOf?
    ensures Write(e, Strength(e.op)) == Write(e.left, Strength(e.op)) + [Infix(e.op)]
      + Write(e.right, Strength(e.op) + 1)
    ensures Untyped(e) ==> Untyped(e.left) && Untyped(e.right)
  {
  }

  lemma {:induction false} CallEaten(ts: seq<Token>, pos: nat, e: Tree)
    requires e.CallOf? && Untyped(e) && At(ts, pos, Write(e, 8)) && Clear(ts, pos, pos + |Write(e, 8)|)
    ensures Parse(ts, pos, 8) == More(ts, pos + |Write(e, 8)|, 8, e)
    decreases |Write(e, 8)|, 1, 0
  {
    hide At, OpensTypes, Parse, Primary, Arguments;
    var f, args := Write(e.callee, 8), WriteList(e.args);
    assert Write(e, 8) == f + ([Open] + args + [Close]);
    AtParts(ts, pos, f, [Open] + args + [Close]);
    AtGroup(ts, pos + |f|, args);
    NoTypesAt(ts, pos + |f|);
    Eats(ts, pos, e.callee, 8);
    ArgumentsEaten(ts, pos + |f| + 1, e.args);
  }

  lemma NoTypesAt(ts: seq<Token>, pos: nat)
    requires Peek(ts, pos) != Infix(Less)
    ensures !OpensTypes(ts, pos)
  {
  }

  lemma {:induction false} IndexEaten(ts: seq<Token>, pos: nat, e: Tree)
    requires e.IndexOf? && Untyped(e) && At(ts, pos, Write(e, 8)) && Clear(ts, pos, pos + |Write(e, 8)|)
    ensures Parse(ts, pos, 8) == More(ts, pos + |Write(e, 8)|, 8, e)
    decreases |Write(e, 8)|, 1, 0
  {
    hide At, OpensTypes, Parse, Primary, Arguments;
    var b, i := Write(e.base, 8), Write(e.index, 0);
    assert Write(e, 8) == b + [OpenIndex] + i + [CloseIndex];
    AtParts(ts, pos, b + [OpenIndex] + i, [CloseIndex]);
    AtParts(ts, pos, b + [OpenIndex], i);
    AtParts(ts, pos, b, [OpenIndex]);
    AtFirst(ts, pos + |b|, [OpenIndex]);
    AtFirst(ts, pos + |b| + 1 + |i|, [CloseIndex]);
    NoTypesAt(ts, pos + |b|);
    NoTypesAt(ts, pos + |b| + 1 + |i|);
    Eats(ts, pos, e.base, 8);
    Whole(ts, pos + |b| + 1, e.index);
  }

  lemma {:induction false} MemberEaten(ts: seq<Token>, pos: nat, e: Tree)
    requires e.MemberOf? && Untyped(e) && At(ts, pos, Write(e, 8)) && Clear(ts, pos, pos + |Write(e, 8)|)
    ensures Parse(ts, pos, 8) == More(ts, pos + |Write(e, 8)|, 8, e)
    decreases |Write(e, 8)|, 1, 0
  {
    hide At, OpensTypes, Parse, Primary, Arguments;
    var b := Write(e.base, 8);
    assert Write(e, 8) == b + ([Dot] + [Word(e.member)]);
    AtParts(ts, pos, b, [Dot] + [Word(e.member)]);
    AtParts(ts, pos + |b|, [Dot], [Word(e.member)]);
    AtFirst(ts, pos + |b|, [Dot]);
    AtFirst(ts, pos + |b| + 1, [Word(e.member)]);
    Eats(ts, pos, e.base, 8);
  }

  lemma {:induction false} ArgumentsEaten(ts: seq<Token>, pos: nat, es: seq<Tree>)
    requires AllUntyped(es) && At(ts, pos, WriteList(es)) && Clear(ts, pos, pos + |WriteList(es)|)
      && Peek(ts, pos + |WriteList(es)|) == Close
    ensures Arguments(ts, pos) == Got(es, pos + |WriteList(es)| + 1)
    decreases |WriteList(es)|, 12, 0
  {
    hide At, OpensTypes, Parse, Primary, Clear, List, AllUntyped;
    if es != [] {
      ListEaten(ts, pos, es);
      ListFirst(es);
      AtFirst(ts, pos, WriteList(es));
      hide WriteList;
    }
  }

  /** No tree begins with a closing parenthesis or with `>`. */
  lemma {:induction false} ListFirst(es: seq<Tree>)
    requires es != []
    ensures WriteList(es) != [] && WriteList(es)[0] == Write(es[0], 0)[0] != Close
  {
    Begins(es[0], 0);
  }

  lemma {:induction false} Begins(e: Tree, k: nat)
    ensures Write(e, k)[0] != Close && Write(e, k)[0] != Infix(Greater)
    decreases e
  {
    if Rank(e) >= k {
      match e
      case InfixOf(op, l, _) => Begins(l, Strength(op));
      case CallOf(f, _, _) => Begins(f, 8);
      case IndexOf(b, _) => Begins(b, 8);
      case MemberOf(b, _) => Begins(b, 8);
      case InsertInto(_, x, _) => Begins(x, 1);
      case _ =>
    }
  }

  lemma AtList(ts: seq<Token>, pos: nat, es: seq<Tree>)
    requires es != [] && At(ts, pos, WriteList(es))
    ensures |es| == 1 ==> WriteList(es) == Write(es[0], 0)
    ensures
      var first := Write(es[0], 0);
      |es| > 1 ==>
        At(ts, pos, first) && Peek(ts, pos + |first|) == Comma && At(ts, pos + |first| + 1, WriteList(es[1..]))
        && |WriteList(es)| == |first| + 1 + |WriteList(es[1..])|
  {
    hide At, Write;
    if |es| > 1 {
      var first, rest := Write(es[0], 0), WriteList(es[1..]);
      AtParts(ts, pos, first + [Comma], rest);
      AtParts(ts, pos, first, [Comma]);
      AtFirst(ts, pos + |first|, [Comma]);
    }
  }

  lemma {:induction false} ListEaten(ts: seq<Token>, pos: nat, es: seq<Tree>)
    requires es != [] && AllUntyped(es) && At(ts, pos, WriteList(es)) && Clear(ts, pos, pos + |WriteList(es)|)
    requires Peek(ts, pos + |WriteList(es)|) == Close
    ensures List(ts, pos) == Got(es, pos + |WriteList(es)|)
    decreases |WriteList(es)|, 11, 0
  {
    hide At, OpensTypes, Parse, Write, Untyped, WriteList;
    var first := Write(es[0], 0);
    AtList(ts, pos, es);
    if |es| == 1 {
      NoTypesAt(ts, pos + |first|);
      Whole(ts, pos, es[0]);
      assert es == [es[0]];
    } else {
      NoTypesAt(ts, pos + |first|);
      Whole(ts, pos, es[0]);
      ListEaten(ts, pos + |first| + 1, es[1..]);
      assert es == [es[0]] + es[1..];
    }
  }

  /** A whole expression. */
  lemma {:induction false} Whole(ts: seq<Token>, pos: nat, e: Tree)
    requires Untyped(e) && At(ts, pos, Write(e, 0)) && Quiet(ts, pos + |Write(e, 0)|, 0)
      && Clear(ts, pos, pos + |Write(e, 0)|)
    ensures Parse(ts, pos, 0) == Got(e, pos + |Write(e, 0)|)
    decreases |Write(e, 0)|, 10, 0
  {
    hide At, OpensTypes, Primary;
    if e.InsertInto? {
      InsertEaten(ts, pos, e);
    } else {
      SameWriting(e, 0);
      hide Write, Untyped;
      QuietStill(ts, pos + |Write(e, 0)|, 0);
      QuietStill(ts, pos + |Write(e, 0)|, 1);
      Eats(ts, pos, e, 1);
    }
  }

  lemma {:induction false} InsertEaten(ts: seq<Token>, pos: nat, e: Tree)
    requires e.InsertInto? && Untyped(e) && At(ts, pos, Write(e, 0)) && Clear(ts, pos, pos + |Write(e, 0)|)
    ensures Parse(ts, pos, 0) == Got(e, pos + |Write(e, 0)|)
    decreases |Write(e, 0)|, 9, 0
  {
    hide At, OpensTypes, Primary;
    var x := Write(e.inserted, 1);
    assert Write(e, 0) == x + ([Arrow(e.channel)] + [Word(e.name)]);
    AtParts(ts, pos, x, [Arrow(e.channel)] + [Word(e.name)]);
    AtParts(ts, pos + |x|, [Arrow(e.channel)], [Word(e.name)]);
    AtFirst(ts, pos + |x|, [Arrow(e.channel)]);
    AtFirst(ts, pos + |x| + 1, [Word(e.name)]);
    NoTypesAt(ts, pos + |x|);
    Eats(ts, pos, e.inserted, 1);
  }

  // ---- and only then ----

  /** No `<` followed by `>` in this stretch. */
  ghost predicate Tight(ts: seq<Token>, from: nat, to: nat) {
    forall p | from <= p < to - 1 :: !(Peek(ts, p) == Infix(Less) && Peek(ts, p + 1) == Infix(Greater))
  }

  lemma {:induction false} Inherits(ts: seq<Token>, pos: nat, k: nat, left: Tree)
    requires pos <= |ts| && More(ts, pos, k, left).Got? && Untyped(More(ts, pos, k, left).tree)
    ensures Untyped(left)
    decreases |ts| - pos
  {
    hide Parse, OpensTypes, Arguments, TypeArguments, AllUntyped;
    var t := Peek(ts, pos);
    if 1 <= k <= 6 && t.Infix? && Strength(t.op) == k {
      var right := Parse(ts, pos + 1, k + 1);
      Inherits(ts, right.next, k, InfixOf(t.op, left, right.tree));
    } else if k == 8 {
      if t == Dot {
        Inherits(ts, pos + 2, 8, MemberOf(left, ts[pos + 1].text));
      } else if OpensTypes(ts, pos) {
        var types := TypeArguments(ts, pos);
        var args := Arguments(ts, types.next);
        Inherits(ts, args.next, 8, CallOf(left, types.tree, args.tree));
      } else if t == Open {
        var args := Arguments(ts, pos + 1);
        Inherits(ts, args.next, 8, CallOf(left, [], args.tree));
      } else if t == OpenIndex {
        var index := Parse(ts, pos + 1, 0);
        Inherits(ts, index.next + 1, 8, IndexOf(left, index.tree));
      }
    }
  }

  /** A tree without type arguments is read only where no `<` is taken for some. */
  lemma {:induction false} Unread(ts: seq<Token>, pos: nat, k: nat)
    requires pos <= |ts| && k <= 9 && Parse(ts, pos, k).Got? && Untyped(Parse(ts, pos, k).tree)
      && Tight(ts, pos, Parse(ts, pos, k).next)
    ensures Clear(ts, pos, Parse(ts, pos, k).next) && (1 <= k <= 8 ==> !OpensTypes(ts, Parse(ts, pos, k).next))
    decreases |ts| - pos, 10 - k
  {
    hide OpensTypes, More, Primary, AllUntyped;
    if k == 9 {
      PrimaryUnread(ts, pos);
    } else if k == 7 && PrefixAt(Peek(ts, pos)).Some? {
      NoTypesAt(ts, pos);
      Unread(ts, pos + 1, 7);
    } else {
      var first := Parse(ts, pos, k + 1);
      Inherits(ts, first.next, k, first.tree);
      Unread(ts, pos, k + 1);
      MoreUnread(ts, first.next, k, first.tree);
    }
  }

  lemma {:induction false} MoreUnread(ts: seq<Token>, pos: nat, k: nat, left: Tree)
    requires pos <= |ts| && k <= 8 && More(ts, pos, k, left).Got? && Untyped(More(ts, pos, k, left).tree)
    requires (k <= 7 ==> !OpensTypes(ts, pos)) && Tight(ts, pos, More(ts, pos, k, left).next)
    ensures Clear(ts, pos, More(ts, pos, k, left).next) && (k >= 1 ==> !OpensTypes(ts, More(ts, pos, k, left).next))
    decreases |ts| - pos, 2
  {
    hide Parse, OpensTypes, Arguments, TypeArguments, AllUntyped;
    var t := Peek(ts, pos);
    if k == 0 && t.Arrow? {
      NoTypesAt(ts, pos);
      NoTypesAt(ts, pos + 1);
    } else if 1 <= k <= 6 && t.Infix? && Strength(t.op) == k {
      var right := Parse(ts, pos + 1, k + 1);
      Inherits(ts, right.next, k, InfixOf(t.op, left, right.tree));
      Unread(ts, pos + 1, k + 1);
      MoreUnread(ts, right.next, k, InfixOf(t.op, left, right.tree));
    } else if k == 8 {
      PostfixUnread(ts, pos, left);
    }
  }

  lemma {:induction false} PostfixUnread(ts: seq<Token>, pos: nat, left: Tree)
    requires pos <= |ts| && More(ts, pos, 8, left).Got? && Untyped(More(ts, pos, 8, left).tree)
      && Tight(ts, pos, More(ts, pos, 8, left).next)
    ensures Clear(ts, pos, More(ts, pos, 8, left).next) && !OpensTypes(ts, More(ts, pos, 8, left).next)
    decreases |ts| - pos, 1
  {
    hide Parse, OpensTypes, Arguments, TypeArguments, AllUntyped;
    var t := Peek(ts, pos);
    if t == Dot {
      NoTypesAt(ts, pos);
      NoTypesAt(ts, pos + 1);
      MoreUnread(ts, pos + 2, 8, MemberOf(left, ts[pos + 1].text));
    } else if OpensTypes(ts, pos) {
      TypedAnyway(ts, pos, left);
    } else if t == Open {
      CallUnread(ts, pos, left);
    } else if t == OpenIndex {
      IndexUnread(ts, pos, left);
    }
  }

  lemma {:induction false} IndexUnread(ts: seq<Token>, pos: nat, left: Tree)
    requires pos <= |ts| && Peek(ts, pos) == OpenIndex
    requires More(ts, pos, 8, left).Got? && Untyped(More(ts, pos, 8, left).tree)
      && Tight(ts, pos, More(ts, pos, 8, left).next)
    ensures Clear(ts, pos, More(ts, pos, 8, left).next) && !OpensTypes(ts, More(ts, pos, 8, left).next)
    decreases |ts| - pos, 0
  {
    hide Parse, OpensTypes, Arguments, TypeArguments, AllUntyped;
    NoTypesAt(ts, pos);
    var index := Parse(ts, pos + 1, 0);
    NoTypesAt(ts, index.next);
    Inherits(ts, index.next + 1, 8, IndexOf(left, index.tree));
    Unread(ts, pos + 1, 0);
    MoreUnread(ts, index.next + 1, 8, IndexOf(left, index.tree));
  }

  lemma {:induction false} CallUnread(ts: seq<Token>, pos: nat, left: Tree)
    requires pos <= |ts| && Peek(ts, pos) == Open
    requires More(ts, pos, 8, left).Got? && Untyped(More(ts, pos, 8, left).tree)
      && Tight(ts, pos, More(ts, pos, 8, left).next)
    ensures Clear(ts, pos, More(ts, pos, 8, left).next) && !OpensTypes(ts, More(ts, pos, 8, left).next)
    decreases |ts| - pos, 0
  {
    hide Parse, OpensTypes, Arguments, TypeArguments, AllUntyped;
    NoTypesAt(ts, pos);
    var args := Arguments(ts, pos + 1);
    Inherits(ts, args.next, 8, CallOf(left, [], args.tree));
    ArgumentsUnread(ts, pos + 1);
    MoreUnread(ts, args.next, 8, CallOf(left, [], args.tree));
  }

  /** A `<` taken for type arguments leaves some in the tree, if there are any. */
  lemma TypedAnyway(ts: seq<Token>, pos: nat, left: Tree)
    requires pos <= |ts| && OpensTypes(ts, pos) && More(ts, pos, 8, left).Got? && Untyped(More(ts, pos, 8, left).tree)
    ensures !Tight(ts, pos, More(ts, pos, 8, left).next)
  {
    hide Parse, Arguments, TypeArguments, Closes, AllUntyped;
    var types := TypeArguments(ts, pos);
    var args := Arguments(ts, types.next);
    Inherits(ts, args.next, 8, CallOf(left, types.tree, args.tree));
    assert Untyped(CallOf(left, types.tree, args.tree));
  }

  lemma {:induction false} PrimaryUnread(ts: seq<Token>, pos: nat)
    requires pos <= |ts| && Primary(ts, pos).Got? && Untyped(Primary(ts, pos).tree)
      && Tight(ts, pos, Primary(ts, pos).next)
    ensures Clear(ts, pos, Primary(ts, pos).next)
    decreases |ts| - pos, 0
  {
    hide Parse, OpensTypes, Untyped;
    forall p | pos <= p < Primary(ts, pos).next && !Peek(ts, pos).Open?
      ensures !OpensTypes(ts, p)
    {
      NoTypesAt(ts, p);
    }
    if Peek(ts, pos).Open? {
      NoTypesAt(ts, pos);
      NoTypesAt(ts, Parse(ts, pos + 1, 0).next);
      Unread(ts, pos + 1, 0);
    }
  }

  lemma {:induction false} ArgumentsUnread(ts: seq<Token>, pos: nat)
    requires pos <= |ts| && Arguments(ts, pos).Got? && AllUntyped(Arguments(ts, pos).tree)
      && Tight(ts, pos, Arguments(ts, pos).next)
    ensures Clear(ts, pos, Arguments(ts, pos).next)
    decreases |ts| - pos, 12
  {
    hide List, OpensTypes, AllUntyped;
    NoTypesAt(ts, Arguments(ts, pos).next - 1);
    if Peek(ts, pos) != Close {
      ListUnread(ts, pos);
    }
  }

  lemma {:induction false} ListUnread(ts: seq<Token>, pos: nat)
    requires pos <= |ts| && List(ts, pos).Got? && AllUntyped(List(ts, pos).tree) && Tight(ts, pos, List(ts, pos).next)
    ensures Clear(ts, pos, List(ts, pos).next)
    decreases |ts| - pos, 11
  {
    hide Parse, OpensTypes, Untyped;
    var first := Parse(ts, pos, 0);
    Unread(ts, pos, 0);
    if Peek(ts, first.next) == Comma {
      NoTypesAt(ts, first.next);
      assert List(ts, pos).tree[1..] == List(ts, first.next + 1).tree;
      ListUnread(ts, first.next + 1);
    }
  }

  // ---- written trees are tight ----

  ghost predicate Joined(w: seq<Token>) {
    && w != [] && !w[|w| - 1].Infix? && w[0] != Infix(Greater)
    && forall i | 0 <= i < |w| - 1 :: !(w[i] == Infix(Less) && w[i + 1] == Infix(Greater))
  }

  lemma JoinedWith(a: seq<Token>, m: seq<Token>, b: seq<Token>)
    requires (a != [] ==> Joined(a)) && (b != [] ==> Joined(b)) && |m| == 1 && (a == [] ==> m[0] != Infix(Greater))
      && (b == [] ==> !m[0].Infix?)
    ensures Joined(a + m + b)
  {
    var w := a + m + b;
    forall i | 0 <= i < |w| - 1
      ensures !(w[i] == Infix(Less) && w[i + 1] == Infix(Greater))
    {
      if i < |a| - 1 {
        assert w[i] == a[i] && w[i + 1] == a[i + 1];
      } else if i == |a| - 1 {
        assert w[i] == a[|a| - 1];
      } else if i > |a| {
        assert w[i] == b[i - |a| - 1] && w[i + 1] == b[i - |a|];
      }
    }
    if b != [] {
      assert w[|w| - 1] == b[|b| - 1];
    }
    if a != [] {
      assert w[0] == a[0];
    }
  }

  lemma {:induction false} WrittenJoined(e: Tree, k: nat)
    ensures Joined(Write(e, k))
    decreases e, if Rank(e) < k then 1 else 0
  {
    hide Joined;
    if Rank(e) < k {
      WrittenJoined(e, 0);
      JoinedWith([], [Open], Write(e, 0));
      assert [] + [Open] + Write(e, 0) == [Open] + Write(e, 0);
      JoinedWith([Open] + Write(e, 0), [Close], []);
      assert [Open] + Write(e, 0) + [Close] + [] == Write(e, k);
    } else {
      match e {
        case PrefixOf(p, x) =>
          WrittenJoined(x, 7);
          JoinedWith([], [PrefixToken(p)], Write(x, 7));
          assert [] + [PrefixToken(p)] + Write(x, 7) == Write(e, k);
        case InfixOf(op, l, r) =>
          WrittenJoined(l, Strength(op));
          WrittenJoined(r, Strength(op) + 1);
          JoinedWith(Write(l, Strength(op)), [Infix(op)], Write(r, Strength(op) + 1));
        case CallOf(f, _, args) =>
          WrittenJoined(f, 8);
          ListJoined(args);
          JoinedWith(Write(f, 8), [Open], WriteList(args));
          JoinedWith(Write(f, 8) + [Open] + WriteList(args), [Close], []);
          assert Write(f, 8) + [Open] + WriteList(args) + [Close] + [] == Write(e, k);
        case IndexOf(b, i) =>
          WrittenJoined(b, 8);
          WrittenJoined(i, 0);
          JoinedWith(Write(b, 8), [OpenIndex], Write(i, 0));
          JoinedWith(Write(b, 8) + [OpenIndex] + Write(i, 0), [CloseIndex], []);
          assert Write(b, 8) + [OpenIndex] + Write(i, 0) + [CloseIndex] + [] == Write(e, k);
        case MemberOf(b, m) =>
          WrittenJoined(b, 8);
          WordJoined([Dot, Word(m)]);
          JoinedWith(Write(b, 8), [Dot], [Word(m)]);
          assert Write(b, 8) + [Dot] + [Word(m)] == Write(e, k);
        case InsertInto(c, x, n) =>
          WrittenJoined(x, 1);
          WordJoined([Arrow(c), Word(n)]);
          JoinedWith(Write(x, 1), [Arrow(c)], [Word(n)]);
          assert Write(x, 1) + [Arrow(c)] + [Word(n)] == Write(e, k);
        case _ => WordJoined(Write(e, k));
      }
    }
  }

  lemma WordJoined(w: seq<Token>)
    requires w != [] && forall t | t in w :: !t.Infix?
    ensures Joined(w) && Joined([w[|w| - 1]])
  {
    assert forall i | 0 <= i < |w| :: w[i] in w;
  }

  lemma {:induction false} ListJoined(es: seq<Tree>)
    ensures es != [] ==> Joined(WriteList(es))
    decreases es, 0
  {
    hide Joined, Write;
    if es != [] {
      WrittenJoined(es[0], 0);
      if |es| > 1 {
        ListJoined(es[1..]);
        JoinedWith(Write(es[0], 0), [Comma], WriteList(es[1..]));
      }
    }
  }

  lemma WrittenTight(ts: seq<Token>, pos: nat, e: Tree, k: nat)
    requires At(ts, pos, Write(e, k))
    ensures Tight(ts, pos, pos + |Write(e, k)|)
  {
    hide Write;
    WrittenJoined(e, k);
    var w := Write(e, k);
    forall p | pos <= p < pos + |w| - 1
      ensures !(Peek(ts, p) == Infix(Less) && Peek(ts, p + 1) == Infix(Greater))
    {
      var part := ts[pos..pos + |w|];
      assert part[p - pos] == w[p - pos] && part[p + 1 - pos] == w[p + 1 - pos];
    }
  }

  /** Reading what was written gives the tree back, and ends where it ends, exactly if no `<`
      in it is taken for the beginning of type arguments. */
  lemma ParsesExactly(ts: seq<Token>, pos: nat, e: Tree)
    requires Untyped(e) && At(ts, pos, Write(e, 0)) && Quiet(ts, pos + |Write(e, 0)|, 0)
    ensures Parse(ts, pos, 0) == Got(e, pos + |Write(e, 0)|) <==> Clear(ts, pos, pos + |Write(e, 0)|)
  {
    hide At, Quiet, Clear, Tight, Parse, Write, Untyped;
    AtFits(ts, pos, Write(e, 0));
    if Clear(ts, pos, pos + |Write(e, 0)|) {
      Whole(ts, pos, e);
    } else if Parse(ts, pos, 0) == Got(e, pos + |Write(e, 0)|) {
      WrittenTight(ts, pos, e, 0);
      Unread(ts, pos, 0);
    }
  }

  /** So no two trees are written alike, as far as they are read back. */
  lemma WriteInjective(e: Tree, f: Tree)
    requires Untyped(e) && Untyped(f) && Write(e, 0) == Write(f, 0) && Clear(Write(e, 0), 0, |Write(e, 0)|)
    ensures e == f
  {
    hide Clear, Parse, Write, Untyped;
    var ts := Write(e, 0);
    assert ts[0..|ts|] == ts;
    ParsesExactly(ts, 0, e);
    ParsesExactly(ts, 0, f);
  }

  /** `a < b || c > (d || e)` is not read back: the `<` is closed by the far `>`. */
  lemma LessMisread()
    ensures
      var a, b, c, d, e := Identifier("a"), Identifier("b"), Identifier("c"), Identifier("d"), Identifier("e");
      var tree := InfixOf(Or, InfixOf(Less, a, b), InfixOf(Greater, c, InfixOf(Or, d, e)));
      Untyped(tree) && Parse(Write(tree, 0), 0, 0) != Got(tree, |Write(tree, 0)|)
  {
    hide Parse, Quiet;
    var a, b, c, d, e := Identifier("a"), Identifier("b"), Identifier("c"), Identifier("d"), Identifier("e");
    var right := InfixOf(Greater, c, InfixOf(Or, d, e));
    var tree := InfixOf(Or, InfixOf(Less, a, b), right);
    MisreadWritten();
    var ts := Write(tree, 0);
    assert Closes(ts, 5, 1) && Closes(ts, 4, 1) && Closes(ts, 3, 1) && Closes(ts, 2, 1);
    assert OpensTypes(ts, 1);
    assert ts[0..|ts|] == ts;
    assert Quiet(ts, |ts|, 0) by {
      EndQuiet(ts);
    }
    hide Write;
    ParsesExactly(ts, 0, tree);
  }

  lemma EndQuiet(ts: seq<Token>)
    ensures Quiet(ts, |ts|, 0)
  {
  }

  lemma MisreadWritten()
    ensures
      var a, b, c, d, e := Identifier("a"), Identifier("b"), Identifier("c"), Identifier("d"), Identifier("e");
      Write(InfixOf(Or, InfixOf(Less, a, b), InfixOf(Greater, c, InfixOf(Or, d, e))), 0)
      == [Word("a"), Infix(Less), Word("b"), Infix(Or), Word("c"), Infix(Greater), Open, Word("d"), Infix(Or),
        Word("e"), Close]
  {
    var a, b, c, d, e := Identifier("a"), Identifier("b"), Identifier("c"), Identifier("d"), Identifier("e");
    var group := InfixOf(Or, d, e);
    var right := InfixOf(Greater, c, group);
    assert Write(group, 5) == [Open, Word("d"), Infix(Or), Word("e"), Close];
    assert Write(right, 2) == [Word("c"), Infix(Greater), Open, Word("d"), Infix(Or), Word("e"), Close];
    assert Write(InfixOf(Less, a, b), 1) == [Word("a"), Infix(Less), Word("b")];
  }
}
