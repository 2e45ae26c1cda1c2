/** The numbers behind folding and counting, told without the functions that compute them. */
module Arithmetic {
  import opened Bytes
  import opened Syntax
  import opened Semantics
  import opened Values
  import opened Folding

  // ---- doubles ----

  function Distance(a: int, b: int): nat {
    if a <= b then b - a else a - b
  }

  /** The naturals a double can hold: 53 bits, shifted. */
  predicate ShiftedTo(d: nat, m: nat, e: nat) {
    m < 0x20_0000_0000_0000 && d == m * Pow2(e)
  }

  ghost predicate IsDouble(d: nat) {
    exists m: nat, e: nat :: ShiftedTo(d, m, e)
  }

  /** Of two neighbours on a grid the nearer one is taken, half way the even one. */
  function Taken(q: nat, r: nat, p: nat): nat {
    if 2 * r > p || (2 * r == p && q % 2 == 1) then q + 1 else q
  }

  lemma TakenNearest(q: nat, r: nat, p: nat, k: nat)
    requires r < p
    ensures Settled(q, r, p) == Taken(q, r, p) * p
    ensures Distance(q * p + r, Taken(q, r, p) * p) <= Distance(q * p + r, k * p)
    ensures
      Distance(q * p + r, Taken(q, r, p) * p) == Distance(q * p + r, k * p) && Taken(q, r, p) != k
      ==> Taken(q, r, p) % 2 == 0
  {
    assert (q + 1) * p == q * p + p;
    if k < q {
      Multiples(k + 1, q, p);
      assert (k + 1) * p == k * p + p;
    } else if k > q + 1 {
      Multiples(q + 2, k, p);
      assert (q + 2) * p == q * p + 2 * p;
    }
  }

  /** No double is nearer to `n` than the one it is rounded to, and if another is as near, the
      mantissa of that one is odd. */
  lemma RoundsToNearest(n: nat, d: nat) returns (m: nat, e: nat)
    requires IsDouble(d)
    ensures RoundNat(n) == m * Pow2(e) && m <= 0x20_0000_0000_0000
    ensures Distance(n, RoundNat(n)) <= Distance(n, d)
    ensures Distance(n, RoundNat(n)) == Distance(n, d) && d != RoundNat(n) ==> m % 2 == 0
  {
    hide Settled, Taken, Distance, Excess, Nearest;
    e := Excess(n);
    var p := Pow2(e);
    var q, r := Cell(n, e);
    m := Taken(q, r, p);
    TakenBounds(q, r, p);
    var k := BestOnGrid(n, e, d);
    TakenNearest(q, r, p, k);
  }

  /** The cell of the grid that `n` is in. */
  lemma Cell(n: nat, e: nat) returns (q: nat, r: nat)
    requires e == Excess(n)
    ensures n == q * Pow2(e) + r && r < Pow2(e) && q < Mantissa
    ensures RoundNat(n) == Settled(q, r, Pow2(e))
  {
    hide Settled, Excess, Pow2, Nearest;
    ExcessBounds(n);
    q, r := CellOf(n, Pow2(e));
  }

  lemma CellOf(n: nat, p: nat) returns (q: nat, r: nat)
    requires p > 0 && n < Mantissa * p
    ensures n == q * p + r && r < p && q < Mantissa
    ensures Nearest(n, p) == Settled(q, r, p)
  {
    hide Settled;
    q, r := n / p, n % p;
    DivMod(n, p);
    MultiplesBack(q, Mantissa, p);
  }

  lemma DivMod(n: nat, p: nat)
    requires p > 0
    ensures n == (n / p) * p + n % p && n % p < p
  {
  }

  lemma TakenBounds(q: nat, r: nat, p: nat)
    ensures q <= Taken(q, r, p) <= q + 1
  {
  }

  /** A point of the grid that is as near to `n` as the double `d`, and `d` itself if it is
      on the grid; strictly nearer if it is not. */
  lemma BestOnGrid(n: nat, e: nat, d: nat) returns (k: nat)
    requires IsDouble(d) && e == Excess(n)
    ensures k * Pow2(e) == d || Distance(n, k * Pow2(e)) < Distance(n, d)
  {
    hide Excess, Distance, Pow2;
    var m: nat, f: nat :| ShiftedTo(d, m, f);
    if f >= e {
      k := m * Pow2(f - e);
      Pow2Sum(f - e, e);
      Triple(m, Pow2(f - e), Pow2(e));
    } else {
      k := Mantissa / 2;
      ExcessBounds(n);
      var edge := HalfOf(e);
      Pow2Sum(e - 1 - f, f);
      BelowGrid(m, Pow2(f), Pow2(e - 1 - f));
      Farther(n, edge, d);
    }
  }

  lemma HalfOf(e: nat) returns (edge: nat)
    requires e > 0
    ensures edge == Mantissa * Pow2(e - 1) == Mantissa / 2 * Pow2(e)
  {
    edge := Mantissa * Pow2(e - 1);
    Doubled(Pow2(e - 1), Mantissa / 2);
  }

  lemma Farther(n: nat, g: nat, d: nat)
    requires d < g <= n
    ensures Distance(n, g) < Distance(n, d)
  {
  }

  lemma BelowGrid(m: nat, x: nat, y: nat)
    requires m < Mantissa && x > 0 && y > 0
    ensures m * x < Mantissa * (y * x)
  {
    Multiples(m + 1, Mantissa, x);
    assert (m + 1) * x == m * x + x;
    Multiples(1, y, Mantissa * x);
    Regroup(y, Mantissa, x);
  }

  lemma Regroup(y: nat, m: nat, x: nat)
    ensures y * (m * x) == m * (y * x)
  {
  }

  /** And it is a double itself. */
  lemma RoundsToDouble(n: nat)
    ensures IsDouble(RoundNat(n))
  {
    hide Settled, Taken, Distance, Excess, IsDouble, ShiftedTo, Nearest, RoundNat;
    var e := Excess(n);
    var p := Pow2(e);
    var q, r := Cell(n, e);
    TakenBounds(q, r, p);
    TakenNearest(q, r, p, 0);
    MantissaFits(Taken(q, r, p), e);
  }

  lemma MantissaFits(m: nat, e: nat)
    requires m <= Mantissa
    ensures IsDouble(m * Pow2(e))
  {
    if m < Mantissa {
      assert ShiftedTo(m * Pow2(e), m, e);
    } else {
      Doubled(Pow2(e), Mantissa / 2);
      assert Pow2(e + 1) == 2 * Pow2(e);
      assert ShiftedTo(m * Pow2(e), Mantissa / 2, e + 1);
    }
  }

  // ---- operators ----

  /** Division truncates: the remainder is smaller than the divisor and has the dividend's sign. */
  lemma DivisionTruncates(a: int, b: int)
    requires b != 0
    ensures a == Quotient(a, b) * b + Remainder(a, b)
    ensures Distance(0, Remainder(a, b)) < Distance(0, b)
    ensures (Remainder(a, b) > 0 ==> a > 0) && (Remainder(a, b) < 0 ==> a < 0)
  {
    hide Quotient;
    var q, r := QuotientIs(a, b);
    Signs(a, b, q, r);
  }

  lemma QuotientIs(a: int, b: int) returns (q: nat, r: nat)
    requires b != 0
    ensures Distance(0, a) == q * Distance(0, b) + r && r < Distance(0, b)
    ensures Quotient(a, b) == if (a < 0) == (b < 0) then q else 0 - q
  {
    hide Absolute, Distance;
    MagnitudeIs(a);
    MagnitudeIs(b);
    q, r := Divided(Distance(0, a), Distance(0, b));
  }

  lemma MagnitudeIs(x: int)
    ensures Absolute(x) == Distance(0, x) && (x != 0 ==> Distance(0, x) > 0)
  {
  }

  lemma Divided(n: nat, p: nat) returns (q: nat, r: nat)
    requires p > 0
    ensures n == q * p + r && r < p && q == n / p
  {
    q, r := n / p, n % p;
    DivMod(n, p);
  }

  lemma Signs(a: int, b: int, q: nat, r: nat)
    requires b != 0 && Distance(0, a) == q * Distance(0, b) + r && r < Distance(0, b)
    ensures
      var t := a - (if (a < 0) == (b < 0) then q else 0 - q) * b;
      t == if a < 0 then 0 - r else r
  {
    if b < 0 {
      Negated(q, b);
    } else {
      Negated(q, b);
    }
  }

  lemma Negated(q: nat, b: int)
    ensures (0 - q) * b == 0 - q * b && q * (0 - b) == 0 - q * b
  {
  }

  /** A folded integer: 64 bits, and `x` but for a multiple of 2^64. */
  predicate FoldsTo(k: Option<Const>, x: int) {
    k.Some? && k.value.IntC? && IsI64(k.value.i) && (k.value.i - x) % 0x1_0000_0000_0000_0000 == 0
  }

  lemma IntegersFold(a: int, b: int)
    ensures FoldsTo(FoldBinary(Add, IntC(a), IntC(b)), a + b)
    ensures FoldsTo(FoldBinary(Sub, IntC(a), IntC(b)), a - b)
    ensures FoldsTo(FoldBinary(Mul, IntC(a), IntC(b)), a * b)
    ensures b != 0 ==> FoldsTo(FoldBinary(Div, IntC(a), IntC(b)), Quotient(a, b))
    ensures b != 0 ==> FoldsTo(FoldBinary(Mod, IntC(a), IntC(b)), Remainder(a, b))
    ensures b == 0 ==> FoldBinary(Div, IntC(a), IntC(b)) == FoldBinary(Mod, IntC(a), IntC(b)) == None
    ensures FoldsTo(FoldOne(Unary(Neg), IntC(a)), 0 - a)
  {
    hide Quotient, Remainder, Wrapped, Compared;
    forall x
      ensures FoldsTo(Some(IntC(Wrapped(x))), x)
    {
      WrappedRest(x);
    }
    ComparedOnly(a, b);
  }

  lemma WrappedRest(x: int)
    ensures FoldsTo(Some(IntC(Wrapped(x))), x)
  {
  }

  lemma ComparedOnly(a: int, b: int)
    ensures forall op | op in {Add, Sub, Mul, Div, Mod} :: Compared(op, a, b) == None
  {
    hide ToDouble;
  }

  /** Comparisons are of the doubles the integers are rounded to; within 2^53 that is of the
      integers themselves. */
  lemma ComparisonsFold(a: int, b: int, x: int, y: int)
    requires (x == ToDouble(a) && y == ToDouble(b))
      || (x == a && y == b && Distance(0, a) <= Mantissa && Distance(0, b) <= Mantissa)
    ensures FoldBinary(Eq, IntC(a), IntC(b)) == Some(BoolC(x == y))
    ensures FoldBinary(Ne, IntC(a), IntC(b)) == Some(BoolC(x != y))
    ensures FoldBinary(Lt, IntC(a), IntC(b)) == Some(BoolC(x < y))
    ensures FoldBinary(Le, IntC(a), IntC(b)) == Some(BoolC(x <= y))
    ensures FoldBinary(Gt, IntC(a), IntC(b)) == Some(BoolC(x > y))
    ensures FoldBinary(Ge, IntC(a), IntC(b)) == Some(BoolC(x >= y))
  {
    hide ToDouble, Exactly;
    if Distance(0, a) <= Mantissa && Distance(0, b) <= Mantissa {
      ToDoubleExact(a);
      ToDoubleExact(b);
    }
  }

  /** Everything else that folds. */
  lemma OthersFold(s: string, t: string, b: bool, c: bool, k: Const)
    ensures FoldBinary(Add, TextC(s), TextC(t)) == Some(TextC(s + t))
    ensures FoldBinary(Eq, TextC(s), TextC(t)) == Some(BoolC(s == t))
    ensures FoldBinary(Ne, TextC(s), TextC(t)) == Some(BoolC(s != t))
    ensures FoldBinary(Eq, BoolC(b), BoolC(c)) == Some(BoolC(b == c))
    ensures FoldBinary(Ne, BoolC(b), BoolC(c)) == Some(BoolC(b != c))
    ensures FoldOne(MemberGet("len"), TextC(s)) == Some(IntC(|s|))
    ensures FoldOne(Unary(Not), k) == Some(BoolC(k in FalseConstants))
  {
  }

  const FalseConstants: set<Const> := {NullC, BoolC(false), IntC(0), TextC("")}

  /** `&&` and `||` fold to a boolean, and only if both sides fold. */
  lemma LogicalFolds(l: Expr, r: Expr, under: Option<Const>)
    ensures Fold(l, under).None? || Fold(r, under).None?
      ==> Fold(Logical(true, l, r), under) == Fold(Logical(false, l, r), under) == None
    ensures Fold(l, under).Some? && Fold(r, under).Some?
      ==> var x, y := Fold(l, under).value !in FalseConstants, Fold(r, under).value !in FalseConstants;
          Fold(Logical(true, l, r), under) == Some(BoolC(x && y))
            && Fold(Logical(false, l, r), under) == Some(BoolC(x || y))
  {
  }

  /** Of the names only `_` folds; a character folds to the text of it. */
  lemma LeavesFold(name: string, c: nat, under: Option<Const>)
    ensures Fold(Ident(name), under) == if name == "_" then under else None
    ensures Fold(Literal(CharLit(c)), under) == if c < 256 then Some(TextC([c as char])) else None
    ensures forall i :: Fold(Literal(IntLit(i)), under) == Some(IntC(i))
    ensures forall s :: Fold(Literal(StrLit(s)), under) == Some(TextC(s))
    ensures forall b :: Fold(Literal(BoolLit(b)), under) == Some(BoolC(b))
    ensures Fold(Literal(NullLit), under) == Some(NullC)
    ensures forall bits :: Fold(Literal(FloatLit(bits)), under) == None
  {
  }

  /** And nothing else does: the operands are of one kind, and the operator is one of these. */
  lemma NothingElseFolds(op: BinOp, l: Const, r: Const)
    requires FoldBinary(op, l, r).Some?
    ensures (l.TextC? && r.TextC? && op in {Add, Eq, Ne}) || (l.BoolC? && r.BoolC? && op in {Eq, Ne})
      || (l.IntC? && r.IntC? && op !in {BitAnd, BitOr, BitXor} && !(op in {Div, Mod} && r.i == 0))
  {
    hide ToDouble, Quotient, Remainder, Wrapped;
  }

  function Run(env: Env, op: BinOp, v: Value, w: Value, heap: seq<Cell>): Outcome {
    env.prim(Binary(op), [v, w], heap).0
  }

  predicate Overflows(r: Outcome) {
    r.Raised? && r.exn.kind == Overflow
  }

  /** What the machine's operators are taken to do with integers. */
  lemma IntegersRun(env: Env, a: int, b: int, heap: seq<Cell>)
    requires VmOps(env)
    ensures if IsI64(a + b) then Run(env, Add, IntV(a), IntV(b), heap) == Ok(IntV(a + b))
      else Overflows(Run(env, Add, IntV(a), IntV(b), heap))
    ensures if IsI64(a - b) then Run(env, Sub, IntV(a), IntV(b), heap) == Ok(IntV(a - b))
      else Overflows(Run(env, Sub, IntV(a), IntV(b), heap))
    ensures if IsI64(a * b) then Run(env, Mul, IntV(a), IntV(b), heap) == Ok(IntV(a * b))
      else Overflows(Run(env, Mul, IntV(a), IntV(b), heap))
    ensures b != 0 && IsI64(Quotient(a, b)) ==> Run(env, Div, IntV(a), IntV(b), heap) == Ok(IntV(Quotient(a, b)))
    ensures b != 0 && IsI64(Remainder(a, b)) ==> Run(env, Mod, IntV(a), IntV(b), heap) == Ok(IntV(Remainder(a, b)))
  {
    hide ToDouble, Quotient, Remainder, VmOps, Compared;
    ComparedOnly(a, b);
    RunsAs(env, Add, a, b, heap);
    RunsAs(env, Sub, a, b, heap);
    RunsAs(env, Mul, a, b, heap);
    RunsAs(env, Div, a, b, heap);
    RunsAs(env, Mod, a, b, heap);
  }

  lemma RunsAs(env: Env, op: BinOp, a: int, b: int, heap: seq<Cell>)
    requires VmOps(env)
    ensures VmInts(op, a, b).Some? && op !in {Eq, Ne} ==> Run(env, op, IntV(a), IntV(b), heap) == VmInts(op, a, b).value
    ensures Run(env, Eq, IntV(a), IntV(b), heap) == Ok(BoolV(a == b))
    ensures Run(env, Ne, IntV(a), IntV(b), heap) == Ok(BoolV(a != b))
  {
    hide VmInts;
    assert VmOp(Binary(op), [IntV(a), IntV(b)]) == VmBinary(op, IntV(a), IntV(b));
    assert VmOp(Binary(Eq), [IntV(a), IntV(b)]) == VmBinary(Eq, IntV(a), IntV(b));
    assert VmOp(Binary(Ne), [IntV(a), IntV(b)]) == VmBinary(Ne, IntV(a), IntV(b));
  }

  lemma IntegersCompared(env: Env, a: int, b: int, heap: seq<Cell>)
    requires VmOps(env)
    ensures Run(env, Eq, IntV(a), IntV(b), heap) == Ok(BoolV(a == b))
    ensures Run(env, Ne, IntV(a), IntV(b), heap) == Ok(BoolV(a != b))
    ensures Run(env, Lt, IntV(a), IntV(b), heap) == Ok(BoolV(ToDouble(a) < ToDouble(b)))
    ensures Run(env, Le, IntV(a), IntV(b), heap) == Ok(BoolV(ToDouble(a) <= ToDouble(b)))
    ensures Run(env, Gt, IntV(a), IntV(b), heap) == Ok(BoolV(ToDouble(a) > ToDouble(b)))
    ensures Run(env, Ge, IntV(a), IntV(b), heap) == Ok(BoolV(ToDouble(a) >= ToDouble(b)))
  {
    hide ToDouble, VmOps, Exactly;
    RunsAs(env, Lt, a, b, heap);
    RunsAs(env, Le, a, b, heap);
    RunsAs(env, Gt, a, b, heap);
    RunsAs(env, Ge, a, b, heap);
  }

  /** And with the rest: a boolean counts as 0 or 1, a character as its code in comparisons and
      as a string of one in concatenations. */
  lemma OthersRun(env: Env, s: string, t: string, c: nat, b: bool, v: Value, heap: seq<Cell>)
    requires VmOps(env) && c < 256 && Basic(v)
    ensures Run(env, Add, StrV(s), StrV(t), heap) == Ok(StrV(s + t))
    ensures Run(env, Add, StrV(s), CharV(c), heap) == Ok(StrV(s + [c as char]))
    ensures Run(env, Add, CharV(c), StrV(t), heap) == Ok(StrV([c as char] + t))
    ensures Run(env, Eq, StrV(s), StrV(t), heap) == Ok(BoolV(s == t))
    ensures Run(env, Eq, CharV(c), IntV(c), heap) == Ok(BoolV(true))
    ensures Run(env, Eq, BoolV(b), IntV(if b then 1 else 0), heap) == Ok(BoolV(true))
    ensures Run(env, Eq, StrV(s), CharV(c), heap) == Ok(BoolV(false))
    ensures Run(env, Eq, NullV, v, heap) == Run(env, Eq, v, NullV, heap) == Ok(BoolV(v == NullV))
  {
    hide VmOps;
    RunsTo(env, Add, StrV(s), StrV(t), heap);
    RunsTo(env, Add, StrV(s), CharV(c), heap);
    RunsTo(env, Add, CharV(c), StrV(t), heap);
    RunsTo(env, Eq, StrV(s), StrV(t), heap);
    RunsTo(env, Eq, CharV(c), IntV(c), heap);
    RunsTo(env, Eq, BoolV(b), IntV(if b then 1 else 0), heap);
    RunsTo(env, Eq, StrV(s), CharV(c), heap);
    RunsTo(env, Eq, NullV, v, heap);
    RunsTo(env, Eq, v, NullV, heap);
  }

  lemma RunsTo(env: Env, op: BinOp, v: Value, w: Value, heap: seq<Cell>)
    requires VmOps(env)
    ensures VmBinary(op, v, w).Some? ==> Run(env, op, v, w, heap) == VmBinary(op, v, w).value
  {
    hide VmBinary;
    assert VmOp(Binary(op), [v, w]) == VmBinary(op, v, w);
  }

  /** The operators with one operand. */
  lemma UnaryRun(env: Env, v: Value, i: int, s: string, heap: seq<Cell>)
    requires VmOps(env)
    ensures env.prim(Unary(Not), [v], heap)
      == (Ok(BoolV(v in {NullV, BoolV(false), IntV(0), FloatV(0), FloatV(0x8000_0000_0000_0000), StrV(""), CharV(0)})),
        heap)
    ensures IsI64(i) && i > -0x8000_0000_0000_0000
      ==> env.prim(Unary(Neg), [IntV(i)], heap) == (Ok(IntV(0 - i)), heap)
    ensures Overflows(env.prim(Unary(Neg), [IntV(-0x8000_0000_0000_0000)], heap).0)
    ensures env.prim(MemberGet("len"), [StrV(s)], heap) == (Ok(IntV(|s|)), heap)
  {
    assert VmOp(Unary(Not), [v]).Some? && VmOp(Unary(Neg), [IntV(i)]).Some?;
    assert VmOp(Unary(Neg), [IntV(-0x8000_0000_0000_0000)]).Some? && VmOp(MemberGet("len"), [StrV(s)]).Some?;
  }
}
