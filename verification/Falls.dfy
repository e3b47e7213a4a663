/**
 How far the price can fall under the deviation breaker (programs/peg_desk/src/pricing.rs) over a whole run.
 The mirror image of the bound on rises is false for large bounds, because 20 bounds in one go are more than
 19 double steps compounded; it holds exactly up to 395 bps (and, emptily, from 5 000 bps on).
 */
module Falls {
  import opened Arith
  import opened Breakers
  import opened Pricing

  const LARGEST: nat := 395

  function Minus(a: nat, b: nat): nat {
    if b <= a then a - b else 0
  }

  /** One double step down, in units of 1/10 000. */
  function Down(d: nat): nat {
    Minus(10_000, 2 * d)
  }

  // ----- powers -----

  lemma {:induction false} PowMonotone(b: nat, c: nat, n: nat)
    requires b <= c
    ensures Pow(b, n) <= Pow(c, n)
  {
    if n > 0 {
      PowMonotone(b, c, n - 1);
      ProductFits(b, Pow(b, n - 1), c, Pow(c, n - 1));
    }
  }

  lemma {:induction false} PowPositive(b: nat, n: nat)
    requires b > 0
    ensures Pow(b, n) > 0
  {
    if n > 0 {
      PowPositive(b, n - 1);
      ProductFits(1, 1, b, Pow(b, n - 1));
    }
  }

  /** Powers are convex: at a point between u and v they lie below the chord. */
  lemma {:induction false} Chord(e: nat, d: nat, u: nat, v: nat, w: nat, k: nat)
    requires e + d > 0 && v <= u && (e + d) * w == e * u + d * v
    ensures (e + d) * Pow(w, k) <= e * Pow(u, k) + d * Pow(v, k)
  {
    if k > 0 {
      var p, q, r := Pow(u, k - 1), Pow(v, k - 1), Pow(w, k - 1);
      Chord(e, d, u, v, w, k - 1);
      PowMonotone(v, u, k - 1);
      ChordStep(e, d, u, v, w, p, q, r);
    }
  }

  lemma ChordStep(e: nat, d: nat, u: nat, v: nat, w: nat, p: nat, q: nat, r: nat)
    requires e + d > 0 && v <= u && q <= p && (e + d) * w == e * u + d * v
    requires (e + d) * r <= e * p + d * q
    ensures (e + d) * (w * r) <= e * (u * p) + d * (v * q)
  {
    Rotate(e + d, w, r);
    MulLe(w, (e + d) * r, e * p + d * q);
    Distribute(w, e, p, d, q);
    Spread(e, d, u, v, w, p, q);
  }

  lemma Distribute(w: int, e: int, p: int, d: int, q: int)
    ensures w * (e * p + d * q) == e * (w * p) + d * (w * q)
  {
    var x, y := e * p, d * q;
    assert w * (x + y) == w * x + w * y;
    Rotate(w, e, p);
    Rotate(w, d, q);
  }

  /** Moving from the mean out to the ends gains more on the large side than it loses on the small one. */
  lemma Spread(e: nat, d: nat, u: nat, v: nat, w: nat, p: nat, q: nat)
    requires v <= u && q <= p && (e + d) * w == e * u + d * v
    ensures e * (w * p) + d * (w * q) <= e * (u * p) + d * (v * q)
  {
    var z := Lever(e, d, u, v, w);
    MulLe(z, q, p);
    Share(e, u, w, p);
    Share(d, w, v, q);
  }

  /** A weighted mean balances its two ends. */
  lemma Lever(e: nat, d: nat, u: nat, v: nat, w: nat) returns (z: nat)
    requires v <= u && (e + d) * w == e * u + d * v
    ensures z == e * (u - w) == d * (w - v)
  {
    MulAdd(e, d, w);
    assert e * (u - w) == e * u - e * w && d * (w - v) == d * w - d * v;
    if w <= u {
      ProductFits(0, 0, e, u - w);
      z := e * (u - w);
    } else {
      ProductFits(0, 0, d, w - v);
      z := d * (w - v);
    }
  }

  lemma Share(e: int, u: int, w: int, p: int)
    ensures e * (u - w) * p == e * (u * p) - e * (w * p)
  {
    assert (u - w) * p == u * p - w * p;
    Associate(e, u - w, p);
    assert e * (u * p - w * p) == e * (u * p) - e * (w * p);
  }

  /** Powers lie above their tangents. */
  lemma {:induction false} Tangent(c: nat, h: nat, n: nat)
    requires h <= c && n >= 1
    ensures Pow(c, n) <= Pow(c - h, n) + n * h * Pow(c, n - 1)
  {
    if n == 1 {
      assert Pow(c, 1) == c * Pow(c, 0) && Pow(c - h, 1) == (c - h) * Pow(c - h, 0);
    } else {
      Tangent(c, h, n - 1);
      TangentStep(c, h, n, Pow(c, n - 2), Pow(c - h, n - 1));
    }
  }

  lemma TangentStep(c: nat, h: nat, n: nat, p: nat, q: nat)
    requires h <= c && n >= 2 && c * p <= q + (n - 1) * h * p
    ensures c * (c * p) <= (c - h) * q + n * h * (c * p)
  {
    MulLe(c - h, c * p, q + (n - 1) * h * p);
    var x := (n - 1) * h;
    assert (c - h) * (c * p) == c * (c * p) - h * (c * p);
    assert (c - h) * (q + x * p) == (c - h) * q + (c - h) * (x * p);
    assert (c - h) * (x * p) == c * (x * p) - h * (x * p);
    ProductFits(0, 0, h, x * p);
    Rotate(c, x, p);
    assert n * h == x + h by {
      MulAdd(n - 1, 1, h);
    }
    assert n * h * (c * p) == x * (c * p) + h * (c * p);
  }

  // ----- one trade down -----

  /** Bounds allowed after k whole windows. */
  function Bounds(k: nat): nat {
    if k + 1 <= MAX_DEVIATION_WINDOWS then k + 1 else MAX_DEVIATION_WINDOWS
  }

  /** Powers of 9210 and 10000 side by side, at the largest bound. */
  lemma {:induction false} LargestStep(k: nat)
    requires 1 <= k <= 19
    ensures Pow(9_210, k) <= Pow(10_000, k - 1) * (10_000 - 395 * (k + 1))
  {
    if k == 1 {
      assert Pow(9_210, 1) == 9_210 * Pow(9_210, 0) && Pow(10_000, 0) == 1;
    } else if k <= 12 {
      LargestStep(k - 1);
      var p := Pow(10_000, k - 2);
      MulLe(9_210, Pow(9_210, k - 1), p * (10_000 - 395 * k));
      Rotate(9_210, p, 10_000 - 395 * k);
      MulLe(p, 9_210 * (10_000 - 395 * k), 10_000 * (10_000 - 395 * (k + 1)));
      Rotate(p, 10_000, 10_000 - 395 * (k + 1));
      Associate(10_000, p, 10_000 - 395 * (k + 1));
    } else {
      LargeSteps(k);
    }
  }

  lemma Values(b: nat)
    ensures Pow(b, 1) == b && Pow(b, 2) == b * b && Pow(b, 3) == b * (b * b) && Pow(b, 4) == b * (b * (b * b))
  {
    assert Pow(b, 0) == 1;
  }

  lemma {:induction false} LargeSteps(k: nat)
    requires 13 <= k <= 19
    ensures Pow(9_210, k) <= Pow(10_000, k - 1) * (10_000 - 395 * (k + 1))
  {
    Values(9_210);
    Values(10_000);
    PowAdd(9_210, 4, 4);
    PowAdd(9_210, 8, 4);
    PowAdd(9_210, 12, 4);
    PowAdd(10_000, 4, 4);
    PowAdd(10_000, 8, 4);
    PowAdd(10_000, 12, 4);
    PowAdd(9_210, 12, 1);
    PowAdd(9_210, 12, 2);
    PowAdd(9_210, 12, 3);
    PowAdd(9_210, 16, 1);
    PowAdd(9_210, 16, 2);
    PowAdd(9_210, 16, 3);
    PowAdd(10_000, 12, 1);
    PowAdd(10_000, 12, 2);
    PowAdd(10_000, 12, 3);
    PowAdd(10_000, 16, 1);
    PowAdd(10_000, 16, 2);
  }

  /** Up to the largest bound, what one trade may fall after k windows is no more than k double steps. */
  lemma StepDown(d: nat, k: nat)
    requires d <= LARGEST && k >= 1
    ensures Pow(Down(d), k) <= Pow(10_000, k - 1) * (10_000 - d * Bounds(k))
  {
    if k <= 19 {
      LargestStep(k);
      Chord(395 - d, d, 10_000, 9_210, 10_000 - 2 * d, k);
      var p := Pow(10_000, k - 1);
      MulLe(d, Pow(9_210, k), p * (10_000 - 395 * (k + 1)));
      ScaleDown(d, k, p, Pow(10_000 - 2 * d, k));
    } else {
      StepDown(d, 19);
      PowAdd(Down(d), 19, k - 19);
      PowAdd(10_000, 18, k - 19);
      PowMonotone(Down(d), 10_000, k - 19);
      LaterStep(Pow(Down(d), 19), Pow(Down(d), k - 19), Pow(10_000, 18), Pow(10_000, k - 19), 10_000 - d * 20);
    }
  }

  lemma LaterStep(x: nat, y: nat, p: nat, q: nat, z: nat)
    requires x <= p * z && y <= q
    ensures x * y <= p * q * z
  {
    ProductFits(x, y, p * z, q);
    Rearrange(p, z, q);
    Associate(p, q, z);
    assert p * z * q == p * (z * q);
  }

  lemma ScaleDown(d: nat, k: nat, p: nat, x: nat)
    requires d <= 395 && 1 <= k <= 19
    requires 395 * x <= (395 - d) * (10_000 * p) + d * (p * (10_000 - 395 * (k + 1)))
    ensures x <= p * (10_000 - d * (k + 1))
  {
    var y := 10_000 - 395 * (k + 1);
    Rotate(d, p, y);
    Rotate(395 - d, 10_000, p);
    assert (395 - d) * (10_000 * p) == p * (10_000 * (395 - d));
    assert 10_000 * (395 - d) + d * y == 395 * (10_000 - d * (k + 1)) by {
      assert d * y == 10_000 * d - d * (395 * (k + 1));
      Rotate(d, 395, k + 1);
    }
    assert p * (10_000 * (395 - d)) + p * (d * y) == p * (395 * (10_000 - d * (k + 1)));
    Rotate(p, 395, 10_000 - d * (k + 1));
    MulCancel(395, x, p * (10_000 - d * (k + 1)));
  }

  // ----- the bound over a run -----

  /** Anchor `a` is not below `m` double steps down from `start`. */
  ghost predicate AboveSteps(a: nat, start: nat, m: nat, d: nat) {
    start * Pow(Down(d), m) <= a * Pow(10_000, m)
  }

  /** Price `p` is not below `m` double steps and one single step down from `start`. */
  ghost predicate PriceAbove(p: nat, start: nat, m: nat, d: nat) {
    start * Pow(Down(d), m) * Minus(10_000, d) <= p * Pow(10_000, m + 1)
  }

  lemma AcceptedFloor(a: Anchor, t: PriceTrade, d: u16, w: u32)
    requires d > 0 && w > 0 && a.price > 0 && t.now >= a.ts && Accept(a, t, d, w).Some?
    ensures a.price * (10_000 - d * Bounds(WindowsSince(a.ts, t.now, w))) <= t.price * 10_000
  {
    AcceptedIff(a, t, d, w);
    FloorOf(t.price, a.price, d * Bounds(WindowsSince(a.ts, t.now, w)));
  }

  lemma FloorOf(p: nat, a: nat, m: nat)
    requires AbsDiff(p, a) * 10_000 <= m * a
    ensures a * (10_000 - m) <= p * 10_000
  {
    assert a * (10_000 - m) == a * 10_000 - a * m;
  }

  lemma FallInWindow(p: nat, a: nat, start: nat, m: nat, d: nat)
    requires d <= LARGEST && AboveSteps(a, start, m, d) && a * (10_000 - d) <= p * 10_000
    ensures PriceAbove(p, start, m, d)
  {
    var b := Pow(10_000, m);
    MulLe(10_000 - d, start * Pow(Down(d), m), a * b);
    MulLe(b, a * (10_000 - d), p * 10_000);
    Rearrange(a, 10_000 - d, b);
    Rearrange(p, 10_000, b);
  }

  lemma FallAcross(p: nat, a: nat, k: nat, start: nat, m: nat, d: nat)
    requires d <= LARGEST && k >= 1 && AboveSteps(a, start, m, d) && a * (10_000 - d * Bounds(k)) <= p * 10_000
    ensures AboveSteps(p, start, m + k, d)
  {
    OneFall(p, a, k, d);
    PowAdd(Down(d), m, k);
    PowAdd(10_000, m, k);
    Compound(p, a, start, Pow(Down(d), m), Pow(Down(d), k), Pow(10_000, m), Pow(10_000, k));
  }

  lemma OneFall(p: nat, a: nat, k: nat, d: nat)
    requires d <= LARGEST && k >= 1 && a * (10_000 - d * Bounds(k)) <= p * 10_000
    ensures a * Pow(Down(d), k) <= p * Pow(10_000, k)
  {
    var lift, z := Pow(10_000, k - 1), 10_000 - d * Bounds(k);
    StepDown(d, k);
    MulLe(a, Pow(Down(d), k), lift * z);
    MulLe(lift, a * z, p * 10_000);
    Rotate(a, lift, z);
    Rotate(lift, p, 10_000);
  }

  lemma Compound(p: nat, a: nat, start: nat, lm: nat, lk: nat, bm: nat, bk: nat)
    requires start * lm <= a * bm && a * lk <= p * bk
    ensures start * (lm * lk) <= p * (bm * bk)
  {
    MulLe(lk, start * lm, a * bm);
    Associate(start, lm, lk);
    MulLe(bm, a * lk, p * bk);
    Rotate(bm, a, lk);
    Rotate(bm, p, bk);
    Rearrange(a, bm, lk);
  }

  /** The anchor after a run is not below as many double steps as windows crossed. */
  lemma {:induction false} AnchorFloor(a: Anchor, trades: seq<PriceTrade>, d: u16, w: u32)
    requires 0 < d <= LARGEST && w > 0 && a.price > 0 && Accepted(a, trades, d, w)
    ensures AboveSteps(After(a, trades, d, w).price, a.price, Crossed(a, trades, d, w), d)
  {
    if trades == [] {
      assert Pow(Down(d), 0) == Pow(10_000, 0) == 1;
    } else {
      var front, t := trades[..|trades| - 1], trades[|trades| - 1];
      AnchorFloor(a, front, d, w);
      AnchorInvariant(a, front, d, w);
      var before := After(a, front, d, w);
      if ShouldReanchor(before.price, before.ts, t.now, w) {
        var k := WindowsSince(before.ts, t.now, w);
        WindowsSinceBound(before.ts, t.now, w);
        AcceptedFloor(before, t, d, w);
        FallAcross(t.price, before.price, k, a.price, Crossed(a, front, d, w), d);
      }
    }
  }

  /** More steps allow more: the floor only gets lower. */
  lemma {:induction false} LowerFloor(p: nat, start: nat, m: nat, n: nat, d: nat)
    requires d <= LARGEST && PriceAbove(p, start, m, d) && m <= n
    ensures PriceAbove(p, start, n, d)
    decreases n - m
  {
    if m < n {
      OneLower(p, start, Pow(Down(d), m), Pow(10_000, m + 1), Down(d), Minus(10_000, d));
      LowerFloor(p, start, m + 1, n, d);
    }
  }

  lemma OneLower(p: nat, start: nat, l: nat, b: nat, down: nat, z: nat)
    requires start * l * z <= p * b && down <= 10_000
    ensures start * (down * l) * z <= p * (10_000 * b)
  {
    Rotate(start, down, l);
    Associate(down, start * l, z);
    MulLe(down, start * l * z, p * b);
    ProductFits(down, p * b, 10_000, p * b);
    Rotate(10_000, p, b);
  }

  lemma StepsAreEnough(p: nat, start: nat, m: nat, d: nat)
    requires d <= LARGEST && AboveSteps(p, start, m, d)
    ensures PriceAbove(p, start, m, d)
  {
    FallWithin(p * Pow(10_000, m), start * Pow(Down(d), m), 10_000 - d);
    Rotate(p, 10_000, Pow(10_000, m));
  }

  lemma FallWithin(x: nat, y: nat, z: nat)
    requires y <= x && z <= 10_000
    ensures y * z <= 10_000 * x
  {
    ProductFits(y, z, x, 10_000);
  }

  /**
   How far the price can have fallen `n` windows after the anchor was set, whatever was traded in between: not
   below n steps of twice the bound, and one.
   */
  lemma FallOverRun(a: Anchor, trades: seq<PriceTrade>, d: u16, w: u32, n: nat)
    requires 0 < d <= LARGEST && w > 0 && a.price > 0 && trades != [] && Accepted(a, trades, d, w)
    requires n == (trades[|trades| - 1].now - a.ts) / w
    ensures trades[|trades| - 1].price * Pow(10_000, n + 1) >= a.price * Pow(10_000 - 2 * d, n) * (10_000 - d)
  {
    var m := StepsDown(a, trades, d, w);
    FloorIff(trades[|trades| - 1].now - a.ts, w, m);
    LowerFloor(trades[|trades| - 1].price, a.price, m, n, d);
  }

  /** The last price is not below as many steps as whole windows have been crossed. */
  lemma StepsDown(a: Anchor, trades: seq<PriceTrade>, d: u16, w: u32) returns (m: nat)
    requires 0 < d <= LARGEST && w > 0 && a.price > 0 && trades != [] && Accepted(a, trades, d, w)
    ensures PriceAbove(trades[|trades| - 1].price, a.price, m, d)
    ensures w * m <= trades[|trades| - 1].now - a.ts
  {
    var front, t := trades[..|trades| - 1], trades[|trades| - 1];
    AnchorFloor(a, front, d, w);
    AnchorInvariant(a, front, d, w);
    m := LastTrade(After(a, front, d, w), t, d, w, a, Crossed(a, front, d, w));
  }

  lemma LastTrade(before: Anchor, t: PriceTrade, d: u16, w: u32, start: Anchor, crossed: nat) returns (m: nat)
    requires 0 < d <= LARGEST && w > 0 && before.price > 0 && start.ts <= before.ts <= t.now
    requires w * crossed <= before.ts - start.ts && AboveSteps(before.price, start.price, crossed, d)
    requires Accept(before, t, d, w).Some?
    ensures PriceAbove(t.price, start.price, m, d) && w * m <= t.now - start.ts
  {
    var k := WindowsSince(before.ts, t.now, w);
    WindowsSinceBound(before.ts, t.now, w);
    AcceptedFloor(before, t, d, w);
    LastFall(t.price, before.price, k, start.price, crossed, d);
    m := crossed + k;
    MulAdd(crossed, k, w);
  }

  lemma LastFall(p: nat, a: nat, k: nat, start: nat, m: nat, d: nat)
    requires d <= LARGEST && AboveSteps(a, start, m, d) && a * (10_000 - d * Bounds(k)) <= p * 10_000
    ensures PriceAbove(p, start, m + k, d)
  {
    if k == 0 {
      FallInWindow(p, a, start, m, d);
    } else {
      FallAcross(p, a, k, start, m, d);
      StepsAreEnough(p, start, m + k, d);
    }
  }

  // ----- beyond the largest bound -----

  /** What the bound says of one run. */
  ghost predicate KeepsFloor(a: Anchor, trades: seq<PriceTrade>, d: u16, w: u32)
    requires w > 0 && trades != [] && trades[|trades| - 1].now >= a.ts
  {
    PriceAbove(trades[|trades| - 1].price, a.price, (trades[|trades| - 1].now - a.ts) / w, d)
  }

  ghost predicate RunOf(a: Anchor, trades: seq<PriceTrade>, d: u16, w: u32) {
    w > 0 && a.price > 0 && trades != [] && trades[|trades| - 1].now >= a.ts && Accepted(a, trades, d, w)
  }

  /** The bound on falls holds of every run if and only if the deviation bound is at most 395 bps. */
  lemma FallBoundIff(d: u16, w: u32)
    requires 0 < d < 5_000 && w > 0
    ensures (forall a: Anchor, trades: seq<PriceTrade> :: RunOf(a, trades, d, w) ==> KeepsFloor(a, trades, d, w)) <==> d <= LARGEST
  {
    if d <= LARGEST {
      forall a: Anchor, trades: seq<PriceTrade> | RunOf(a, trades, d, w) ensures KeepsFloor(a, trades, d, w) {
        FallOverRun(a, trades, d, w, (trades[|trades| - 1].now - a.ts) / w);
      }
    } else if d < 500 {
      var a, trades := TwentyBounds(d, w);
    } else if d < 3_334 {
      LongFall(d);
      FreeFall(d, w, 19);
    } else {
      ShortFall(d);
      FreeFall(d, w, 2);
    }
  }

  /** From 20 (or 3) bounds that exceed 100% on, any positive price is accepted. */
  lemma FreeFall(d: u16, w: u32, k: nat)
    requires w > 0 && 1 <= k <= 19 && d * (k + 1) >= 10_000 && d < 5_000
    requires 1_000_000_000_000_000_000 * Pow(Down(d), k) * (10_000 - d) > Pow(10_000, k + 1)
    ensures exists a: Anchor, trades: seq<PriceTrade> :: RunOf(a, trades, d, w) && !KeepsFloor(a, trades, d, w)
  {
    MulLe(w, k, 19);
    var a, t := Anchor(1_000_000_000_000_000_000, 0), PriceTrade(1, w * k);
    AnyPriceAccepted(a, t, d, w, k);
    var trades := [t];
    assert trades[..0] == [];
    assert Accepted(a, [], d, w) && Accepted(a, trades, d, w);
    assert RunOf(a, trades, d, w) && !KeepsFloor(a, trades, d, w);
  }

  lemma AnyPriceAccepted(a: Anchor, t: PriceTrade, d: u16, w: u32, k: nat)
    requires w > 0 && 1 <= k <= 19 && d * (k + 1) >= 10_000 && a.price > t.price && a.ts == 0 && t.now == w * k
    ensures Accept(a, t, d, w).Some? && WindowsSince(a.ts, t.now, w) == k
  {
    DivUnique(t.now, w, k, 0);
    AcceptedIff(a, t, d, w);
    assert AllowedWindows(a, t.now, w) == k + 1;
    MulLe(a.price, 10_000, d * (k + 1));
  }

  lemma ShortFall(d: nat)
    requires 3_334 <= d < 5_000
    ensures 1_000_000_000_000_000_000 * Pow(Down(d), 2) * (10_000 - d) > Pow(10_000, 3)
  {
    Values(Down(d));
    Values(10_000);
    ProductFits(2, 2, Down(d), Down(d));
    ProductFits(4, 5_000, Pow(Down(d), 2), 10_000 - d);
  }

  lemma LongFall(d: nat)
    requires 500 <= d < 3_334
    ensures 1_000_000_000_000_000_000 * Pow(Down(d), 19) * (10_000 - d) > Pow(10_000, 20)
  {
    PowMonotone(3_000, Down(d), 19);
    Nineteen(3_000);
    Nineteen(10_000);
    PowAdd(10_000, 19, 1);
    Values(10_000);
    ProductFits(Pow(3_000, 19), 5_000, Pow(Down(d), 19), 10_000 - d);
    Associate(1_000_000_000_000_000_000, Pow(Down(d), 19), 10_000 - d);
  }

  lemma Nineteen(b: nat)
    ensures Pow(b, 19) == Pow(b, 4) * Pow(b, 4) * Pow(b, 4) * Pow(b, 4) * Pow(b, 3)
    ensures Pow(b, 4) == b * (b * (b * b)) && Pow(b, 3) == b * (b * b)
  {
    Values(b);
    PowAdd(b, 4, 4);
    PowAdd(b, 8, 4);
    PowAdd(b, 12, 4);
    PowAdd(b, 16, 3);
  }

  /** Just above the largest bound: 20 bounds at once, and one more in the same second. */
  lemma TwentyBounds(d: u16, w: u32) returns (a: Anchor, trades: seq<PriceTrade>)
    requires 395 < d < 500 && w > 0
    ensures RunOf(a, trades, d, w) && !KeepsFloor(a, trades, d, w)
  {
    MulLe(w, 19, 0xffff_ffff);
    var now, z := w * 19, 10_000 - 20 * d;
    ProductFits(z, 10_000 - d, 10_000, 10_000);
    ProductFits(1, 1, z, 10_000 - d);
    DivUnique(now, w, 19, 0);
    a := Anchor(100_000_000, 0);
    var first, second := PriceTrade(10_000 * z, now), PriceTrade(z * (10_000 - d), now);
    trades := [first, second];
    TwentyAtOnce(a, first, d, w);
    OneMoreBound(Anchor(first.price, now), second, z, d, w);
    SecondTradeTooLow(d);
    TwoTrades(a, first, second, d, w, 19);
  }

  /** Two accepted trades, the second of them below the floor. */
  lemma TwoTrades(a: Anchor, first: PriceTrade, second: PriceTrade, d: u16, w: u32, n: nat)
    requires w > 0 && a.price > 0 && a.ts == 0 && second.now == first.now == w * n && first.price > 0 && second.price > 0
    requires Accept(a, first, d, w).Some? && Accept(Accept(a, first, d, w).value, second, d, w).Some?
    requires !PriceAbove(second.price, a.price, n, d)
    ensures RunOf(a, [first, second], d, w) && !KeepsFloor(a, [first, second], d, w)
  {
    DivUnique(second.now, w, n, 0);
    assert [first, second][..1] == [first] && [first][..0] == [];
    assert Accepted(a, [], d, w) && After(a, [first], d, w) == Accept(a, first, d, w).value && Accepted(a, [first], d, w);
  }

  lemma TwentyAtOnce(a: Anchor, t: PriceTrade, d: u16, w: u32)
    requires 395 < d < 500 && w > 0 && a == Anchor(100_000_000, 0) && t.now == w * 19 && t.price == 10_000 * (10_000 - 20 * d)
    ensures Accept(a, t, d, w).Some? && Accept(a, t, d, w).value == Anchor(t.price, t.now)
  {
    DivUnique(t.now, w, 19, 0);
    AcceptedIff(a, t, d, w);
    MulLe(w, 1, 19);
  }

  lemma OneMoreBound(moved: Anchor, t: PriceTrade, z: nat, d: u16, w: u32)
    requires d < 500 && w > 0 && t.now == moved.ts && moved.price == 10_000 * z && t.price == z * (10_000 - d)
    ensures Accept(moved, t, d, w).Some?
  {
    assert AbsDiff(t.price, moved.price) == z * d by {
      assert z * (10_000 - d) == z * 10_000 - z * d;
      ProductFits(0, 0, z, d);
    }
    DivUnique(0, w, 0, 0);
    Rotate(d, 10_000, z);
    AcceptedIff(moved, t, d, w);
  }

  lemma SecondTradeTooLow(d: nat)
    requires 395 < d < 500
    ensures 100_000_000 * Pow(Down(d), 19) * (10_000 - d) > (10_000 - 20 * d) * (10_000 - d) * Pow(10_000, 20)
  {
    NineteenBelow(d);
    PowAdd(10_000, 18, 2);
    Values(10_000);
    Outweighs(10_000 - 20 * d, 10_000 - d, Pow(10_000, 18), Pow(Down(d), 19));
  }

  lemma Outweighs(z: nat, y: nat, b: nat, l: nat)
    requires y > 0 && l > b * z
    ensures 100_000_000 * l * y > z * y * (b * 100_000_000)
  {
    MulLt(100_000_000, b * z, l);
    MulLt(y, 100_000_000 * (b * z), 100_000_000 * l);
    Rotate(z * y, b, 100_000_000);
    Rotate(y, b, z);
    assert z * y * (b * 100_000_000) == 100_000_000 * (y * (b * z));
    Rotate(y, 100_000_000, b * z);
  }

  /** Between 396 and 500 bps, 19 double steps stay above 20 bounds at once. */
  lemma NineteenBelow(d: nat)
    requires 395 < d < 500
    ensures Pow(Down(d), 19) > Pow(10_000, 18) * (10_000 - 20 * d)
  {
    Tangent(9_208, 2 * (d - 396), 19);
    AtLargest();
    FromTangent(d - 396, Pow(10_000, 18), Pow(9_208, 18), Pow(9_208, 19), Pow(Down(d), 19));
  }

  lemma FromTangent(e: nat, b: nat, c: nat, c': nat, l: nat)
    requires c' <= l + 19 * (2 * e) * c && c' > b * 2_080 && 19 * c <= 10 * b
    ensures l > b * (2_080 - 20 * e)
  {
    MulLe(2 * e, 19 * c, 10 * b);
    assert 19 * (2 * e) * c == 2 * e * (19 * c);
    assert b * (2_080 - 20 * e) == b * 2_080 - 2 * e * (10 * b);
  }

  lemma AtLargest()
    ensures Pow(9_208, 19) > Pow(10_000, 18) * 2_080
    ensures 19 * Pow(9_208, 18) <= 10 * Pow(10_000, 18)
  {
    Values(9_208);
    Values(10_000);
    PowAdd(9_208, 4, 4);
    PowAdd(9_208, 8, 4);
    PowAdd(9_208, 12, 4);
    PowAdd(9_208, 16, 2);
    PowAdd(9_208, 16, 3);
    PowAdd(10_000, 4, 4);
    PowAdd(10_000, 8, 4);
    PowAdd(10_000, 12, 4);
    PowAdd(10_000, 16, 2);
  }
}
