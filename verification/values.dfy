/** The integer operators a counted loop relies on. Ordering goes through doubles, so
    large integers are rounded before they are compared. */
module Values {
  import opened Bytes
  import opened Syntax
  import opened Semantics

  const Mantissa: int := 0x20_0000_0000_0000

  function Pow2(e: nat): (r: nat)
    ensures r > 0
  {
    if e == 0 then 1 else 2 * Pow2(e - 1)
  }

  /** How many low bits do not fit the 53-bit mantissa. */
  function Excess(n: nat): nat {
    if n < Mantissa then 0 else 1 + Excess(n / 2)
  }

  /** The double nearest to `n`, ties to even. */
  function RoundNat(n: nat): nat {
    Nearest(n, Pow2(Excess(n)))
  }

  /** `n` rounded to a multiple of `p`, ties to even. */
  function Nearest(n: nat, p: nat): nat
    requires p > 0
  {
    Settled(n / p, n % p, p)
  }

  function ToDouble(i: int): int {
    if i < 0 then 0 - RoundNat(0 - i) else RoundNat(i)
  }

  /** Integers within +-2^53 are doubles. */
  lemma ToDoubleExact(i: int)
    requires -Mantissa <= i <= Mantissa
    ensures ToDouble(i) == i
  {
    var n: nat := if i < 0 then 0 - i else i;
    assert Pow2(1) == 2 * Pow2(0) == 2;
    if n == Mantissa {
      assert Excess(n / 2) == 0 && Excess(n) == 1;
    } else {
      assert Excess(n) == 0 && Pow2(0) == 1;
    }
  }

  // ---- rounding keeps the order ----

  lemma {:induction false} ExcessOrder(a: nat, b: nat)
    requires a <= b
    ensures Excess(a) <= Excess(b)
    decreases b
  {
    if a >= Mantissa {
      ExcessOrder(a / 2, b / 2);
    }
  }

  lemma Doubled(p: nat, m: nat)
    ensures m * (2 * p) == 2 * (m * p)
  {
  }

  /** The mantissa of `n` has at most 53 bits, and exactly 53 if anything is cut off. */
  lemma {:induction false} ExcessBounds(n: nat)
    ensures n < Mantissa * Pow2(Excess(n))
    ensures Excess(n) > 0 ==> Mantissa * Pow2(Excess(n) - 1) <= n
    decreases n
  {
    if n >= Mantissa {
      var e := Excess(n / 2);
      ExcessBounds(n / 2);
      Doubled(Pow2(e), Mantissa);
      assert Pow2(e + 1) == 2 * Pow2(e);
      if e > 0 {
        Doubled(Pow2(e - 1), Mantissa);
      } else {
        assert Pow2(0) == 1;
      }
    }
  }

  /** The cell of the grid in which `n` lies, and with it its nearest multiple. */
  lemma Between(n: nat, p: nat) returns (q: nat)
    requires p > 0
    ensures q * p <= n < (q + 1) * p && q * p <= Nearest(n, p) <= (q + 1) * p
    ensures Nearest(n, p) == Settled(q, n - q * p, p)
  {
    q := n / p;
    assert n == q * p + n % p;
    assert (q + 1) * p == q * p + p;
  }

  function Settled(q: nat, r: nat, p: nat): nat {
    if 2 * r > p || (2 * r == p && q % 2 == 1) then (q + 1) * p else q * p
  }

  lemma Multiples(a: nat, b: nat, p: nat)
    requires a <= b
    ensures a * p <= b * p
  {
  }

  lemma MultiplesBack(a: nat, b: nat, p: nat)
    requires a * p < b * p
    ensures a < b
  {
    if b <= a {
      Multiples(b, a, p);
    }
  }

  lemma Grid(n: nat, p: nat, q: nat, m: nat, r: nat)
    requires q * p <= n < (q + 1) * p && q * p <= r <= (q + 1) * p
    ensures n < m * p ==> r <= m * p
    ensures m * p <= n ==> m * p <= r
  {
    if n < m * p {
      MultiplesBack(q, m, p);
      Multiples(q + 1, m, p);
    } else {
      MultiplesBack(m, q + 1, p);
      Multiples(m, q, p);
    }
  }

  /** A multiple of the grid above `n` stays above it, one below stays below. */
  lemma NearestMultiple(n: nat, p: nat, m: nat)
    requires p > 0
    ensures n < m * p ==> Nearest(n, p) <= m * p
    ensures m * p <= n ==> m * p <= Nearest(n, p)
  {
    hide Nearest, Settled;
    var q := Between(n, p);
    Grid(n, p, q, m, Nearest(n, p));
  }

  /** Rounding to a grid keeps the order. */
  lemma NearestOrder(a: nat, b: nat, p: nat)
    requires a <= b && p > 0
    ensures Nearest(a, p) <= Nearest(b, p)
  {
    hide Nearest, Settled;
    var qa := Between(a, p);
    var qb := Between(b, p);
    if qa == qb {
      SettledOrder(qa, a - qa * p, b - qa * p, p);
    } else {
      CellsApart(a, b, p, qa, qb, Nearest(a, p), Nearest(b, p));
    }
  }

  lemma SettledOrder(q: nat, r: nat, r1: nat, p: nat)
    requires r <= r1
    ensures Settled(q, r, p) <= Settled(q, r1, p)
  {
    assert (q + 1) * p == q * p + p;
  }

  lemma CellsApart(a: nat, b: nat, p: nat, qa: nat, qb: nat, ra: nat, rb: nat)
    requires a <= b && qa != qb && qa * p <= a && b < (qb + 1) * p && ra <= (qa + 1) * p && qb * p <= rb
    ensures ra <= rb
  {
    MultiplesBack(qa, qb + 1, p);
    Multiples(qa + 1, qb, p);
  }

  lemma {:induction false} Pow2Sum(a: nat, b: nat)
    ensures Pow2(a + b) == Pow2(a) * Pow2(b)
    decreases a
  {
    if a > 0 {
      Pow2Sum(a - 1, b);
      assert Pow2(a + b) == 2 * Pow2(a - 1 + b);
      Regrouped(Pow2(a - 1), Pow2(b));
    }
  }

  lemma Regrouped(x: nat, y: nat)
    ensures 2 * (x * y) == (2 * x) * y
  {
  }

  lemma Triple(m: nat, x: nat, y: nat)
    ensures m * (x * y) == (m * x) * y
  {
  }

  lemma RoundOrder(a: nat, b: nat)
    requires a <= b
    ensures RoundNat(a) <= RoundNat(b)
  {
    var ea, eb := Excess(a), Excess(b);
    ExcessOrder(a, b);
    if ea == eb {
      NearestOrder(a, b, Pow2(ea));
    } else {
      var edge := Mantissa * Pow2(eb - 1);
      ExcessBounds(a);
      ExcessBounds(b);
      Pow2Sum(eb - 1 - ea, ea);
      Triple(Mantissa, Pow2(eb - 1 - ea), Pow2(ea));
      Multiples(1, Pow2(eb - 1 - ea), Mantissa * Pow2(ea));
      Triple(Pow2(eb - 1 - ea), Mantissa, Pow2(ea));
      NearestMultiple(a, Pow2(ea), Mantissa * Pow2(eb - 1 - ea));
      Doubled(Pow2(eb - 1), Mantissa / 2);
      NearestMultiple(b, Pow2(eb), Mantissa / 2);
      assert edge == (Mantissa / 2) * Pow2(eb);
    }
  }

  /** Going through doubles may merge integers, but never swaps two. */
  lemma ToDoubleOrder(i: int, j: int)
    requires i <= j
    ensures ToDouble(i) <= ToDouble(j)
  {
    if j < 0 {
      RoundOrder(0 - j, 0 - i);
    } else if i >= 0 {
      RoundOrder(i, j);
    }
  }

  /** The order the machine's `<` and `<=` see. */
  predicate Ordered(op: Op, a: int, b: int) {
    if op == Binary(Lt) then ToDouble(a) < ToDouble(b) else ToDouble(a) <= ToDouble(b)
  }

  /** How `<`, `<=` and `+ 1` behave on 64-bit integers. */
  ghost predicate IntOpsAt(env: Env, a: int, b: int, heap: seq<Cell>) {
    && env.prim(Binary(Lt), [IntV(a), IntV(b)], heap) == (Ok(BoolV(Ordered(Binary(Lt), a, b))), heap)
    && env.prim(Binary(Le), [IntV(a), IntV(b)], heap) == (Ok(BoolV(Ordered(Binary(Le), a, b))), heap)
    && (IsI64(a + 1) ==> env.prim(Binary(Add), [IntV(a), IntV(1)], heap) == (Ok(IntV(a + 1)), heap))
  }

  ghost predicate IntOps(env: Env) {
    forall a, b, heap {:trigger IntOpsAt(env, a, b, heap)} | IsI64(a) && IsI64(b) :: IntOpsAt(env, a, b, heap)
  }
}
