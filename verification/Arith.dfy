/** Division facts the solver does not find by itself. */
module Arith {

  lemma MulLe(a: nat, x: int, y: int)
    requires x <= y
    ensures a * x <= a * y
  {}

  lemma MulLt(a: nat, x: int, y: int)
    requires a > 0 && x < y
    ensures a * x + a <= a * y
  {
    MulLe(a, x + 1, y);
    assert a * (x + 1) == a * x + a;
  }

  lemma MulCancel(a: nat, x: int, y: int)
    requires a > 0 && a * x <= a * y
    ensures x <= y
  {
    if y < x {
      MulLt(a, y, x);
    }
  }

  lemma MulCancelLt(a: nat, x: int, y: int)
    requires a * x < a * y
    ensures x < y
  {
    if y <= x {
      MulLe(a, y, x);
    }
  }

  lemma MulAdd(a: int, b: int, c: int)
    ensures (a + b) * c == a * c + b * c
  {}

  lemma MulSplit(a: int, lo: int, mid: int, hi: int)
    ensures a * (hi - lo) == a * (mid - lo) + a * (hi - mid)
  {}

  /** The quotient is the only number whose multiple leaves a remainder in range. */
  lemma DivUnique(m: int, p: int, q: int, r: int)
    requires p >= 1 && m == p * q + r && 0 <= r < p
    ensures m / p == q && m % p == r
  {
    var d := m / p;
    assert m == p * d + m % p;
    if d < q {
      MulLt(p, d, q);
      assert false;
    } else if q < d {
      MulLt(p, q, d);
      assert false;
    }
  }

  function Pow10(n: nat): (p: nat)
    ensures p >= 1
  {
    if n == 0 then 1 else 10 * Pow10(n - 1)
  }

  lemma {:induction false} Pow10Is(m: nat, n: nat)
    ensures Pow10(0) == 1 && Pow10(1) == 10
    ensures Pow10(m + n) == Pow10(m) * Pow10(n)
  {
    assert Pow10(1) == 10 * Pow10(0);
    if n > 0 {
      Pow10Is(m, n - 1);
    }
  }

  function FloorDiv(n: nat, d: nat): nat
    requires d > 0
  {
    n / d
  }

  function CeilDiv(n: nat, d: nat): nat
    requires d > 0
  {
    n / d + if n % d == 0 then 0 else 1
  }

  /** Floor division, as an adjunction. */
  lemma FloorIff(n: nat, d: nat, q: nat)
    requires d > 0
    ensures q <= n / d <==> d * q <= n
  {
    assert n == d * (n / d) + n % d;
    if q <= n / d {
      MulLe(d, q, n / d);
    } else {
      MulLt(d, n / d, q);
    }
  }

  /** Ceiling division, as an adjunction. */
  lemma CeilIff(n: nat, d: nat, q: nat)
    requires d > 0
    ensures CeilDiv(n, d) <= q <==> n <= d * q
  {
    assert n == d * (n / d) + n % d;
    if CeilDiv(n, d) <= q {
      MulLe(d, CeilDiv(n, d), q);
      assert d * (n / d + 1) == d * (n / d) + d;
    } else if q < n / d {
      MulLt(d, q, n / d);
    }
  }

  /** Rounding up, as a range. */
  lemma CeilIs(n: nat, d: nat, q: nat)
    requires d > 0
    ensures CeilDiv(n, d) == q <==> n <= d * q < n + d
  {
    CeilIff(n, d, q);
    if q > 0 {
      CeilIff(n, d, q - 1);
      assert d * (q - 1) == d * q - d;
    } else {
      assert d * q == 0;
    }
  }

  lemma FloorMonotone(x: nat, y: nat, d: nat)
    requires d > 0 && x <= y
    ensures x / d <= y / d
  {
    FloorIff(y, d, x / d);
    FloorIff(x, d, x / d);
  }

  /** If `t` lies within `n` rounding losses of `g`, each below one unit, it exceeds `g` by less than `n`. */
  lemma RoundingLoss(w: nat, g: nat, t: nat, n: nat)
    requires w > 0 && n > 0
    requires w * g <= w * t <= w * g + n * (w - 1)
    ensures 0 <= t - g < n
  {
    MulCancel(w, g, t);
    MulAdd(g, n, w);
    MulAdd(w - 1, 1, n);
    MulCancelLt(w, t, g + n);
  }
}
