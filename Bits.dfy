/**
  Non-negative integers seen as bit strings: the shifts, `&` and `|` that the
  identifier generator applies to C# `long` values, restricted to values that
  are not negative. `x << k` is `x * 2^k`, `x >> k` is `x / 2^k`, and `|` and
  `&` are defined bit by bit, lowest bit first.
*/
module Bits {

  /** 2^n */
  function Pow2(n: nat): (r: nat)
    ensures r >= 1
  {
    if n == 0 then 1 else 2 * Pow2(n - 1)
  }

  /** `x << k` for a value whose shifted form does not overflow. */
  function ShiftLeft(x: nat, k: nat): nat
  {
    x * Pow2(k)
  }

  /** `x >> k` for a non-negative value. */
  function ShiftRight(x: nat, k: nat): nat
  {
    var p := Pow2(k);
    DivNonNegative(x, p);
    x / p
  }

  lemma DivNonNegative(x: nat, p: nat)
    requires p > 0
    ensures x / p >= 0
  {
  }

  /** Bitwise OR: every bit set in either operand is set in the result. */
  function Or(a: nat, b: nat): (r: nat)
    ensures a <= r && b <= r && r <= a + b
    decreases a + b
  {
    if a == 0 then b
    else if b == 0 then a
    else 2 * Or(a / 2, b / 2) + (if a % 2 == 1 || b % 2 == 1 then 1 else 0)
  }

  /** Bitwise AND: only the bits set in both operands are set in the result. */
  function And(a: nat, b: nat): (r: nat)
    ensures r <= a && r <= b
  {
    if a == 0 || b == 0 then 0
    else 2 * And(a / 2, b / 2) + (if a % 2 == 1 && b % 2 == 1 then 1 else 0)
  }

  lemma {:induction false} Pow2Add(a: nat, b: nat)
    ensures Pow2(a + b) == Pow2(a) * Pow2(b)
  {
    if a > 0 {
      Pow2Add(a - 1, b);
    }
  }

  lemma Pow2Monotone(a: nat, b: nat)
    requires a <= b
    ensures Pow2(a) <= Pow2(b)
  {
    Pow2Add(a, b - a);
  }

  lemma MulMonotone(a: nat, b: nat, d: nat)
    requires a <= b
    ensures a * d <= b * d
  {
    assert b * d == a * d + (b - a) * d;
  }

  lemma MulAssoc(x: nat, y: nat, z: nat)
    ensures x * (y * z) == (x * y) * z
  {
  }

  lemma MulDistrib(x: nat, y: nat, z: nat)
    ensures (x + y) * z == x * z + y * z
  {
  }

  /** Quotient and remainder are determined by any decomposition x == q * d + r with 0 <= r < d. */
  lemma DivModUnique(x: nat, d: nat, q: nat, r: nat)
    requires 0 <= r < d
    requires x == q * d + r
    ensures x / d == q && x % d == r
  {
    var q', r' := x / d, x % d;
    assert x == q' * d + r';
    if q' < q {
      MulMonotone(q' + 1, q, d);
    } else if q < q' {
      MulMonotone(q + 1, q', d);
    }
  }

  /** A value below 2^k placed under a value shifted left by k: OR adds them. */
  lemma {:induction false} OrDisjoint(a: nat, b: nat, k: nat)
    requires b < Pow2(k)
    ensures Or(ShiftLeft(a, k), b) == ShiftLeft(a, k) + b
  {
    var x := ShiftLeft(a, k);
    if k == 0 || a == 0 || b == 0 {
    } else {
      assert x == 2 * (a * Pow2(k - 1));
      DivModUnique(x, 2, a * Pow2(k - 1), 0);
      DivModUnique(b, 2, b / 2, b % 2);
      OrDisjoint(a, b / 2, k - 1);
    }
  }

  /** Splitting off the lowest bit before taking a remainder modulo 2 * m. */
  lemma ModDouble(x: nat, m: nat)
    requires m >= 1
    ensures x % (2 * m) == 2 * ((x / 2) % m) + x % 2
  {
    var h, b := x / 2, x % 2;
    var q, r := h / m, h % m;
    assert x == q * (2 * m) + (2 * r + b) by {
      assert x == 2 * h + b;
      assert h == q * m + r;
    }
    DivModUnique(x, 2 * m, q, 2 * r + b);
  }

  /** `x & (2^k - 1)` keeps the k lowest bits of x. */
  lemma {:induction false} AndLowMask(x: nat, k: nat)
    ensures And(x, Pow2(k) - 1) == x % Pow2(k)
  {
    if k == 0 || x == 0 {
    } else {
      var m := Pow2(k - 1);
      DivModUnique(Pow2(k) - 1, 2, m - 1, 1);
      AndLowMask(x / 2, k - 1);
      assert And(x, Pow2(k) - 1) == 2 * ((x / 2) % m) + x % 2;
      ModDouble(x, m);
    }
  }

  /** Shifting right by k drops a lower part that is below 2^k. */
  lemma ShiftRightDrops(a: nat, b: nat, k: nat)
    requires b < Pow2(k)
    ensures ShiftRight(ShiftLeft(a, k) + b, k) == a
    ensures (ShiftLeft(a, k) + b) % Pow2(k) == b
  {
    DivModUnique(a * Pow2(k) + b, Pow2(k), a, b);
  }
}
