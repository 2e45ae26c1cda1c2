/** How operators bind, told without the reader's own table: which tree a chain of operands
    and operators is read as. */
module Precedence {
  import opened Grammar

  /** `q` binds tighter than `p`. From loose to tight: `||`, `&&`, equality, comparison, sums, products. */
  predicate Tighter(q: Op, p: Op) {
    match p
    case Or => q != Or
    case And => q != Or && q != And
    case Equal | Unequal => q in {Less, Greater, AtMost, AtLeast, Plus, Minus, Star, Slash, Percent}
    case Less | Greater | AtMost | AtLeast => q in {Plus, Minus, Star, Slash, Percent}
    case Plus | Minus => q in {Star, Slash, Percent}
    case Star | Slash | Percent => false
  }

  /** The operator that is applied last: none is looser, and none behind it is as loose. */
  predicate Last(ops: seq<Op>, k: nat) {
    && k < |ops|
    && (forall i | 0 <= i < k :: !Tighter(ops[k], ops[i]))
    && (forall i | k < i < |ops| :: Tighter(ops[i], ops[k]))
  }

  /** The tree of `xs[0] ops[0] xs[1] ops[1] …`: the operator applied last is its root. */
  ghost predicate Groups(e: Tree, xs: seq<Tree>, ops: seq<Op>)
    decreases |ops|
  {
    && |xs| == |ops| + 1
    && if ops == [] then e == xs[0] else exists k: nat :: Last(ops, k) && Rooted(e, xs, ops, k)
  }

  ghost predicate Rooted(e: Tree, xs: seq<Tree>, ops: seq<Op>, k: nat)
    requires |xs| == |ops| + 1 && k < |ops|
    decreases |ops|, 0
  {
    && e.InfixOf? && e.op == ops[k]
    && Groups(e.left, xs[..k + 1], ops[..k])
    && Groups(e.right, xs[k + 1..], ops[k + 1..])
  }

  lemma {:induction false} GroupsOnce(e: Tree, f: Tree, xs: seq<Tree>, ops: seq<Op>)
    requires Groups(e, xs, ops) && Groups(f, xs, ops)
    ensures e == f
    decreases |ops|
  {
    if ops != [] {
      var k: nat :| Last(ops, k) && Rooted(e, xs, ops, k);
      var l: nat :| Last(ops, l) && Rooted(f, xs, ops, l);
      assert k == l;
      GroupsOnce(e.left, f.left, xs[..k + 1], ops[..k]);
      GroupsOnce(e.right, f.right, xs[k + 1..], ops[k + 1..]);
    }
  }

  // ---- chains of operands ----

  /** Operands with prefixes and postfixes, read one behind the other with operators between. */
  ghost predicate Chain(ts: seq<Token>, pos: nat, xs: seq<Tree>, ops: seq<Op>, n: nat)
    decreases |ops|
  {
    && |xs| == |ops| + 1 && pos <= |ts|
    && var x := Parse(ts, pos, 7);
      && x.Got? && x.tree == xs[0]
      && if ops == [] then n == x.next
         else Peek(ts, x.next) == Infix(ops[0]) && Chain(ts, x.next + 1, xs[1..], ops[1..], n)
  }

  lemma {:induction false} ChainEnds(ts: seq<Token>, pos: nat, xs: seq<Tree>, ops: seq<Op>, n: nat)
    requires Chain(ts, pos, xs, ops, n)
    ensures pos < n <= |ts| && |xs| == |ops| + 1
    decreases |ops|
  {
    if ops != [] {
      ChainEnds(ts, Parse(ts, pos, 7).next + 1, xs[1..], ops[1..], n);
    }
  }

  lemma {:induction false} ChainSplit(ts: seq<Token>, pos: nat, xs: seq<Tree>, ops: seq<Op>, n: nat, m: nat)
      returns (mid: nat)
    requires Chain(ts, pos, xs, ops, n) && m < |ops|
    ensures Chain(ts, pos, xs[..m + 1], ops[..m], mid)
    ensures mid < |ts| && Peek(ts, mid) == Infix(ops[m]) && Chain(ts, mid + 1, xs[m + 1..], ops[m + 1..], n)
    decreases |ops|
  {
    hide Parse;
    var x := Parse(ts, pos, 7);
    if m == 0 {
      mid := x.next;
    } else {
      mid := ChainSplit(ts, x.next + 1, xs[1..], ops[1..], n, m - 1);
      assert xs[..m + 1][1..] == xs[1..][..m] && ops[..m][1..] == ops[1..][..m - 1];
      assert xs[1..][m..] == xs[m + 1..] && ops[1..][m..] == ops[m + 1..];
    }
  }

  lemma {:induction false} ChainJoin(ts: seq<Token>, pos: nat, xs: seq<Tree>, ops: seq<Op>, mid: nat, op: Op,
      ys: seq<Tree>, rest: seq<Op>, n: nat)
    requires Chain(ts, pos, xs, ops, mid) && Peek(ts, mid) == Infix(op) && Chain(ts, mid + 1, ys, rest, n)
    ensures Chain(ts, pos, xs + ys, ops + [op] + rest, n)
    decreases |ops|
  {
    hide Parse;
    var all := ops + [op] + rest;
    if ops == [] {
      assert (xs + ys)[1..] == ys && all[1..] == rest;
    } else {
      ChainJoin(ts, Parse(ts, pos, 7).next + 1, xs[1..], ops[1..], mid, op, ys, rest, n);
      assert (xs + ys)[1..] == xs[1..] + ys && all[1..] == ops[1..] + [op] + rest;
    }
  }

  // ---- reading a chain ----

  lemma TighterStronger(q: Op, p: Op)
    ensures Tighter(q, p) <==> Strength(p) < Strength(q)
  {
  }

  predicate AtLeastAs(ops: seq<Op>, k: nat) {
    forall op | op in ops :: k <= Strength(op)
  }

  /** Where the reader of strength `k` stops. */
  predicate Stops(ts: seq<Token>, n: nat, k: nat) {
    Peek(ts, n).Infix? ==> Strength(Peek(ts, n).op) < k
  }

  /** The first operator of just this strength. */
  function FirstAt(ops: seq<Op>, k: nat): (m: nat)
    ensures m <= |ops| && (m < |ops| ==> Strength(ops[m]) == k)
    ensures AtLeastAs(ops, k) ==> AtLeastAs(ops[..m], k + 1)
  {
    if ops == [] || Strength(ops[0]) == k then 0
    else
      assert AtLeastAs(ops, k) ==> AtLeastAs(ops[1..], k);
      var m := FirstAt(ops[1..], k);
      assert ops[..m + 1] == [ops[0]] + ops[1..][..m];
      m + 1
  }

  lemma AllBetween(lops: seq<Op>, op: Op, ops: seq<Op>, k: nat)
    requires AtLeastAs(lops, k) && k <= Strength(op) && AtLeastAs(ops, k)
    ensures AtLeastAs(lops + [op] + ops, k)
  {
  }

  lemma Behind(ops: seq<Op>, k: nat, m: nat)
    requires AtLeastAs(ops, k) && m < |ops|
    ensures AtLeastAs(ops[..m], k) && AtLeastAs(ops[m + 1..], k)
  {
  }

  /** An operator of strength `k` between what is tighter than that or follows to the left, and
      what is tighter. */
  lemma Root(op: Op, left: Tree, right: Tree, lxs: seq<Tree>, lops: seq<Op>, xs: seq<Tree>, ops: seq<Op>)
    requires Groups(left, lxs, lops) && Groups(right, xs, ops)
    requires AtLeastAs(lops, Strength(op)) && AtLeastAs(ops, Strength(op) + 1)
    ensures Groups(InfixOf(op, left, right), lxs + xs, lops + [op] + ops)
  {
    hide Tighter;
    var all, k := lops + [op] + ops, |lops|;
    forall i | 0 <= i < k
      ensures !Tighter(all[k], all[i])
    {
      assert all[i] in lops;
      TighterStronger(op, all[i]);
    }
    forall i | k < i < |all|
      ensures Tighter(all[i], all[k])
    {
      assert all[i] == ops[i - k - 1];
      TighterStronger(all[i], op);
    }
    assert (lxs + xs)[..k + 1] == lxs && (lxs + xs)[k + 1..] == xs && all[..k] == lops && all[k + 1..] == ops;
    assert Rooted(InfixOf(op, left, right), lxs + xs, all, k);
  }

  lemma Rejoined(xs: seq<Tree>, ops: seq<Op>, m: nat)
    requires m < |ops| && m < |xs|
    ensures xs[..m + 1] + xs[m + 1..] == xs && ops[..m] + [ops[m]] + ops[m + 1..] == ops
  {
  }

  lemma {:induction false} ChainRead(ts: seq<Token>, pos: nat, k: nat, xs: seq<Tree>, ops: seq<Op>, n: nat)
      returns (e: Tree)
    requires 1 <= k <= 7 && Chain(ts, pos, xs, ops, n) && AtLeastAs(ops, k) && Stops(ts, n, k)
    ensures Parse(ts, pos, k) == Got(e, n) && Groups(e, xs, ops)
    decreases |ops|, 7 - k
  {
    hide OpensTypes, Groups;
    ChainEnds(ts, pos, xs, ops, n);
    if k == 7 {
      e := Operand(ts, pos, xs, ops, n);
    } else {
      hide Chain, Parse, More, AtLeastAs, Strength, FirstAt;
      var m := FirstAt(ops, k);
      if m == |ops| {
        assert ops[..m] == ops;
        e := ChainRead(ts, pos, k + 1, xs, ops, n);
        StepIn(ts, pos, k);
        NoMore(ts, n, k, e);
      } else {
        Behind(ops, k, m);
        var mid := ChainSplit(ts, pos, xs, ops, n, m);
        var first := ChainRead(ts, pos, k + 1, xs[..m + 1], ops[..m], mid);
        StepIn(ts, pos, k);
        e := MoreRead(ts, mid, k, first, xs[..m + 1], ops[..m], ops[m], xs[m + 1..], ops[m + 1..], n);
        Rejoined(xs, ops, m);
      }
    }
  }

  lemma OperatorsWeaker(ops: seq<Op>)
    ensures ops != [] ==> !AtLeastAs(ops, 7)
  {
    if ops != [] {
      assert ops[0] in ops;
    }
  }

  lemma StepIn(ts: seq<Token>, pos: nat, k: nat)
    requires pos <= |ts| && 1 <= k <= 6 && Parse(ts, pos, k + 1).Got?
    ensures Parse(ts, pos, k) == More(ts, Parse(ts, pos, k + 1).next, k, Parse(ts, pos, k + 1).tree)
  {
    hide More, OpensTypes, Primary;
  }

  lemma NoMore(ts: seq<Token>, pos: nat, k: nat, left: Tree)
    requires pos <= |ts| && 1 <= k <= 6 && Stops(ts, pos, k)
    ensures More(ts, pos, k, left) == Got(left, pos)
  {
  }

  lemma Operand(ts: seq<Token>, pos: nat, xs: seq<Tree>, ops: seq<Op>, n: nat) returns (e: Tree)
    requires Chain(ts, pos, xs, ops, n) && AtLeastAs(ops, 7)
    ensures Parse(ts, pos, 7) == Got(e, n) && Groups(e, xs, ops)
  {
    hide Parse;
    OperatorsWeaker(ops);
    e := xs[0];
  }

  lemma {:induction false} MoreRead(ts: seq<Token>, pos: nat, k: nat, left: Tree, lxs: seq<Tree>, lops: seq<Op>, op: Op,
      xs: seq<Tree>, ops: seq<Op>, n: nat) returns (e: Tree)
    requires 1 <= k <= 6 && pos < |ts| && Peek(ts, pos) == Infix(op) && Strength(op) == k && Groups(left, lxs, lops)
    requires Chain(ts, pos + 1, xs, ops, n) && AtLeastAs(lops, k) && AtLeastAs(ops, k) && Stops(ts, n, k)
    ensures More(ts, pos, k, left) == Got(e, n) && Groups(e, lxs + xs, lops + [op] + ops)
    decreases |ops|, 7 - k
  {
    hide Chain, Groups, OpensTypes, Parse, AtLeastAs;
    ChainEnds(ts, pos + 1, xs, ops, n);
    var m := FirstAt(ops, k);
    if m == |ops| {
      assert ops[..m] == ops;
      var right := ChainRead(ts, pos + 1, k + 1, xs, ops, n);
      Root(op, left, right, lxs, lops, xs, ops);
      e := InfixOf(op, left, right);
    } else {
      Behind(ops, k, m);
      AllBetween(lops, op, ops[..m], k);
      var mid := ChainSplit(ts, pos + 1, xs, ops, n, m);
      var right := ChainRead(ts, pos + 1, k + 1, xs[..m + 1], ops[..m], mid);
      Root(op, left, right, lxs, lops, xs[..m + 1], ops[..m]);
      var ys, front := lxs + xs[..m + 1], lops + [op] + ops[..m];
      e := MoreRead(ts, mid, k, InfixOf(op, left, right), ys, front, ops[m], xs[m + 1..], ops[m + 1..], n);
      assert ys + xs[m + 1..] == lxs + xs;
      assert front + [ops[m]] + ops[m + 1..] == lops + [op] + ops;
    }
  }

  // ---- and nothing else is read ----

  lemma {:induction false} ReadChain(ts: seq<Token>, pos: nat, k: nat) returns (xs: seq<Tree>, ops: seq<Op>)
    requires pos <= |ts| && 1 <= k <= 7 && Parse(ts, pos, k).Got?
    ensures Chain(ts, pos, xs, ops, Parse(ts, pos, k).next)
    ensures AtLeastAs(ops, k) && Stops(ts, Parse(ts, pos, k).next, k)
    decreases |ts| - pos, 10 - k
  {
    hide More, OpensTypes;
    if k == 7 {
      xs, ops := [Parse(ts, pos, 7).tree], [];
    } else {
      hide Chain;
      var first := Parse(ts, pos, k + 1);
      xs, ops := ReadChain(ts, pos, k + 1);
      var ys, rest := MoreChain(ts, first.next, k, first.tree, pos, xs, ops);
      xs, ops := ys, rest;
    }
  }

  lemma {:induction false} MoreChain(ts: seq<Token>, pos: nat, k: nat, left: Tree, from: nat, xs: seq<Tree>,
      ops: seq<Op>) returns (ys: seq<Tree>, all: seq<Op>)
    requires pos <= |ts| && 1 <= k <= 6 && More(ts, pos, k, left).Got? && Stops(ts, pos, k + 1)
    requires from < pos && Chain(ts, from, xs, ops, pos) && AtLeastAs(ops, k)
    ensures Chain(ts, from, ys, all, More(ts, pos, k, left).next)
    ensures AtLeastAs(all, k) && Stops(ts, More(ts, pos, k, left).next, k)
    decreases |ts| - pos, 12
  {
    hide Chain, Parse, OpensTypes;
    var t := Peek(ts, pos);
    if t.Infix? && Strength(t.op) == k {
      var right := Parse(ts, pos + 1, k + 1);
      var zs, rest := ReadChain(ts, pos + 1, k + 1);
      ChainJoin(ts, from, xs, ops, pos, t.op, zs, rest, right.next);
      ys, all := MoreChain(ts, right.next, k, InfixOf(t.op, left, right.tree), from, xs + zs, ops + [t.op] + rest);
    } else {
      ys, all := xs, ops;
    }
  }

  /** The tokens from `pos` to `n` are a chain, and `e` is its tree. */
  ghost predicate ReadAs(ts: seq<Token>, pos: nat, e: Tree, n: nat) {
    exists xs, ops :: Chain(ts, pos, xs, ops, n) && Groups(e, xs, ops)
  }

  /** What is read is the whole chain of operators in sight, grouped as the operators bind. */
  lemma BindsExactly(ts: seq<Token>, pos: nat, e: Tree, n: nat)
    requires pos <= |ts|
    ensures Parse(ts, pos, 1) == Got(e, n) <==> ReadAs(ts, pos, e, n) && !Peek(ts, n).Infix?
  {
    hide Chain, Groups, Parse;
    if Parse(ts, pos, 1) == Got(e, n) {
      var xs, ops := ReadChain(ts, pos, 1);
      var f := ChainRead(ts, pos, 1, xs, ops, n);
    }
    if ReadAs(ts, pos, e, n) && !Peek(ts, n).Infix? {
      var xs, ops :| Chain(ts, pos, xs, ops, n) && Groups(e, xs, ops);
      assert AtLeastAs(ops, 1);
      var f := ChainRead(ts, pos, 1, xs, ops, n);
      GroupsOnce(e, f, xs, ops);
    }
  }

  /** A whole expression is such a tree, or one inserted into a pipe or channel. */
  lemma WholeBinds(ts: seq<Token>, pos: nat, e: Tree, n: nat)
    requires pos <= |ts| && n <= |ts| && ReadAs(ts, pos, e, n) && !Peek(ts, n).Infix?
    ensures !Peek(ts, n).Arrow? ==> Parse(ts, pos, 0) == Got(e, n)
    ensures
      Peek(ts, n).Arrow? && Peek(ts, n + 1).Word?
      ==> Parse(ts, pos, 0) == Got(InsertInto(ts[n].channel, e, ts[n + 1].text), n + 2)
  {
    hide OpensTypes;
    BindsExactly(ts, pos, e, n);
  }

  /** Of two operators the tighter one is applied first, of two of one level the left one. */
  lemma TwoOperators(ts: seq<Token>, pos: nat, a: Tree, p: Op, b: Tree, q: Op, c: Tree, n: nat)
    requires Chain(ts, pos, [a, b, c], [p, q], n) && !Peek(ts, n).Infix?
    ensures Tighter(q, p) ==> Parse(ts, pos, 1) == Got(InfixOf(p, a, InfixOf(q, b, c)), n)
    ensures !Tighter(q, p) ==> Parse(ts, pos, 1) == Got(InfixOf(q, InfixOf(p, a, b), c), n)
  {
    hide Chain, Parse, Groups;
    ChainEnds(ts, pos, [a, b, c], [p, q], n);
    TwoGrouped(a, p, b, q, c);
    BindsExactly(ts, pos, if Tighter(q, p) then InfixOf(p, a, InfixOf(q, b, c))
      else InfixOf(q, InfixOf(p, a, b), c), n);
  }

  lemma TwoGrouped(a: Tree, p: Op, b: Tree, q: Op, c: Tree)
    ensures
      Groups(if Tighter(q, p) then InfixOf(p, a, InfixOf(q, b, c))
        else InfixOf(q, InfixOf(p, a, b), c), [a, b, c], [p, q])
  {
    hide Tighter;
    var ops, xs := [p, q], [a, b, c];
    if Tighter(q, p) {
      OneGrouped(b, q, c);
      assert xs[..1] == [a] && xs[1..] == [b, c] && ops[1..] == [q];
      assert Last(ops, 0) && Rooted(InfixOf(p, a, InfixOf(q, b, c)), xs, ops, 0);
    } else {
      OneGrouped(a, p, b);
      assert xs[..2] == [a, b] && xs[2..] == [c] && ops[..1] == [p];
      assert Last(ops, 1) && Rooted(InfixOf(q, InfixOf(p, a, b), c), xs, ops, 1);
    }
  }

  lemma OneGrouped(a: Tree, p: Op, b: Tree)
    ensures Groups(InfixOf(p, a, b), [a, b], [p])
  {
    assert [a, b][..1] == [a] && [a, b][1..] == [b] && [p][..0] == [] && [p][1..] == [];
    assert Groups(a, [a], []) && Groups(b, [b], []);
    assert Last([p], 0) && Rooted(InfixOf(p, a, b), [a, b], [p], 0);
  }

  // ---- prefixes and postfixes ----

  function PrefixAll(prefixes: seq<Prefix>, e: Tree): Tree {
    if prefixes == [] then e else PrefixOf(prefixes[0], PrefixAll(prefixes[1..], e))
  }

  function PrefixSign(p: Prefix): Token {
    match p case Invert => Bang case Complement => Tilde case Negate => Infix(Minus)
  }

  ghost predicate Prefixed(ts: seq<Token>, pos: nat, prefixes: seq<Prefix>)
    decreases |prefixes|
  {
    prefixes == [] || (Peek(ts, pos) == PrefixSign(prefixes[0]) && Prefixed(ts, pos + 1, prefixes[1..]))
  }

  /** Prefixes apply from the inside out to all that its postfixes make of an operand. */
  lemma {:induction false} PrefixesRead(ts: seq<Token>, pos: nat, prefixes: seq<Prefix>)
    requires Prefixed(ts, pos, prefixes) && pos + |prefixes| <= |ts|
    requires Peek(ts, pos + |prefixes|) !in [Bang, Tilde, Infix(Minus)]
    ensures
      var x := Parse(ts, pos + |prefixes|, 8);
      Parse(ts, pos, 7) == if x.Got? then Got(PrefixAll(prefixes, x.tree), x.next) else Failed
    decreases |prefixes|
  {
    hide OpensTypes, Primary;
    if prefixes == [] {
      NoPrefixRead(ts, pos);
    } else {
      PrefixesRead(ts, pos + 1, prefixes[1..]);
      OnePrefixRead(ts, pos, prefixes[0]);
    }
  }

  lemma NoPrefixRead(ts: seq<Token>, pos: nat)
    requires pos <= |ts| && Peek(ts, pos) !in [Bang, Tilde, Infix(Minus)]
    ensures Parse(ts, pos, 7) == Parse(ts, pos, 8)
  {
    hide OpensTypes, Primary;
    var x := Parse(ts, pos, 8);
    if x.Got? {
      NothingMore(ts, x.next, 7, x.tree);
    }
  }

  lemma OnePrefixRead(ts: seq<Token>, pos: nat, p: Prefix)
    requires pos < |ts| && Peek(ts, pos) == PrefixSign(p)
    ensures
      var x := Parse(ts, pos + 1, 7);
      Parse(ts, pos, 7) == if x.Got? then Got(PrefixOf(p, x.tree), x.next) else Failed
  {
    hide More, OpensTypes, Primary;
  }

  // ---- where type arguments begin ----

  /** How many more `<` than `>` there are in a stretch. */
  function Nesting(ts: seq<Token>, from: nat, to: nat): int
    requires from <= to <= |ts|
    decreases |ts| - from
  {
    if from == to then 0
    else (if ts[from] == Infix(Less) then 1 else if ts[from] == Infix(Greater) then -1
      else 0) + Nesting(ts, from + 1, to)
  }

  /** `j` is the `>` that closes the last of `depth` many `<` open at `i`; no statement ends
      before it, and a parenthesis follows. */
  ghost predicate ClosedBy(ts: seq<Token>, i: nat, depth: nat, j: nat) {
    && i <= j < |ts| && ts[j] == Infix(Greater) && Peek(ts, j + 1) == Open
    && (forall m | i <= m < j :: ts[m] != Semicolon && ts[m] != End)
    && depth + Nesting(ts, i, j) == 1
    && (forall m | i <= m < j :: ts[m] == Infix(Greater) ==> depth + Nesting(ts, i, m) > 1)
  }

  ghost predicate Closed(ts: seq<Token>, i: nat, depth: nat) {
    exists j: nat :: ClosedBy(ts, i, depth, j)
  }

  lemma OpenStill(ts: seq<Token>, i: nat, depth: nat)
    requires i < |ts| && Closed(ts, i, depth)
    ensures ts[i] != Semicolon && ts[i] != End
  {
    var j: nat :| ClosedBy(ts, i, depth, j);
    assert ts[i] == ts[j] || i < j;
  }

  lemma {:induction false} ClosesExactly(ts: seq<Token>, i: nat, depth: nat)
    requires depth >= 1
    ensures Closes(ts, i, depth) <==> Closed(ts, i, depth)
    decreases |ts| - i
  {
    if i < |ts| {
      if Closed(ts, i, depth) {
        OpenStill(ts, i, depth);
      }
      var t := ts[i];
      if t == Infix(Greater) && depth == 1 {
        if Closes(ts, i, depth) {
          assert ClosedBy(ts, i, depth, i);
        }
        if j: nat :| ClosedBy(ts, i, depth, j) {
          assert Nesting(ts, i, i) == 0;
        }
      } else if t != Semicolon && t != End {
        var next := if t == Infix(Less) then depth + 1 else if t == Infix(Greater) then depth - 1 else depth;
        ClosesExactly(ts, i + 1, next);
        if Closes(ts, i, depth) {
          var j: nat :| ClosedBy(ts, i + 1, next, j);
          ClosedEarlier(ts, i, depth, next, j);
        }
        if j: nat :| ClosedBy(ts, i, depth, j) {
          ClosedEarlier(ts, i, depth, next, j);
        }
      }
    }
  }

  lemma ClosedEarlier(ts: seq<Token>, i: nat, depth: nat, next: nat, j: nat)
    requires i < |ts| && ts[i] != Semicolon && ts[i] != End
    requires depth >= 1 && (ts[i] == Infix(Greater) ==> depth > 1)
    requires next == depth + Nesting(ts, i, i + 1)
    ensures ClosedBy(ts, i, depth, j) <==> ClosedBy(ts, i + 1, next, j)
  {
    forall m | i < m <= |ts|
      ensures depth + Nesting(ts, i, m) == next + Nesting(ts, i + 1, m)
    {
    }
    assert Nesting(ts, i, i) == 0;
    if ClosedBy(ts, i, depth, j) {
      assert forall m | i < m < j && ts[m] == Infix(Greater) :: depth + Nesting(ts, i, m) > 1;
    }
  }

  // ---- samples ----

  lemma DigitsRead(ts: seq<Token>, pos: nat)
    requires pos < |ts| && ts[pos].Digits? && (pos + 1 == |ts| || (ts[pos + 1].Infix? && ts[pos + 1].op != Less))
    ensures Parse(ts, pos, 7) == Got(Number(ts[pos].value), pos + 1)
  {
    hide Closes;
    NoPrefixRead(ts, pos);
    assert Primary(ts, pos) == Got(Number(ts[pos].value), pos + 1);
    assert Parse(ts, pos, 9) == Primary(ts, pos);
    assert More(ts, pos + 1, 8, Number(ts[pos].value)) == Got(Number(ts[pos].value), pos + 1);
  }

  /** `1 + 2 * 3`, `1 * 2 + 3` and `1 - 2 - 3`. */
  lemma SumsAndProducts(p: Op, q: Op)
    requires p != Less && q != Less
    ensures
      var ts := [Digits(1), Infix(p), Digits(2), Infix(q), Digits(3)];
      var first, second := InfixOf(q, InfixOf(p, Number(1), Number(2)), Number(3)),
        InfixOf(p, Number(1), InfixOf(q, Number(2), Number(3)));
      && (p == Plus && q == Star ==> Parse(ts, 0, 1) == Got(second, 5))
      && (p == Star && q == Plus ==> Parse(ts, 0, 1) == Got(first, 5))
      && (p == Minus && q == Minus ==> Parse(ts, 0, 1) == Got(first, 5))
  {
    hide Parse;
    var ts := [Digits(1), Infix(p), Digits(2), Infix(q), Digits(3)];
    DigitsRead(ts, 0);
    DigitsRead(ts, 2);
    DigitsRead(ts, 4);
    var a, b, c := Number(1), Number(2), Number(3);
    assert Chain(ts, 4, [c], [], 5);
    assert [b, c][1..] == [c] && [q][1..] == [];
    assert Chain(ts, 2, [b, c], [q], 5);
    assert [a, b, c][1..] == [b, c] && [p, q][1..] == [q];
    assert Chain(ts, 0, [a, b, c], [p, q], 5);
    TwoOperators(ts, 0, a, p, b, q, c, 5);
  }

  /** `-a.b` negates the member. */
  lemma NegatedMember()
    ensures
      Parse([Infix(Minus), Word("a"), Dot, Word("b")], 0, 7)
      == Got(PrefixOf(Negate, MemberOf(Identifier("a"), "b")), 4)
  {
    hide Closes;
    var ts := [Infix(Minus), Word("a"), Dot, Word("b")];
    OnePrefixRead(ts, 0, Negate);
    NoPrefixRead(ts, 1);
    assert Primary(ts, 1) == Got(Identifier("a"), 2);
    assert Parse(ts, 1, 9) == Primary(ts, 1);
    assert More(ts, 4, 8, MemberOf(Identifier("a"), "b")) == Got(MemberOf(Identifier("a"), "b"), 4);
    assert More(ts, 2, 8, Identifier("a")) == Got(MemberOf(Identifier("a"), "b"), 4);
  }
}
