/**
 The Peg Desk deviation breaker (programs/peg_desk/src/pricing.rs) over whole runs of trades.
 */
module Breakers {
  import opened Arith
  import opened Prelude
  import opened Pricing

  const MAX_DEVIATION_WINDOWS: nat := 20

  type i64 = x: int | -0x8000_0000_0000_0000 <= x <= 0x7fff_ffff_ffff_ffff

  function SaturatingSub(a: i64, b: i64): i64 {
    if a - b > 0x7fff_ffff_ffff_ffff then 0x7fff_ffff_ffff_ffff
    else if a - b < -0x8000_0000_0000_0000 then -0x8000_0000_0000_0000
    else a - b
  }

  // ----- deviation -----

  function AbsDiff(a: int, b: int): nat {
    if a >= b then a - b else b - a
  }

  function DeviationBps(price: u64, last: u64): Option<u64> {
    if last == 0 then None else
    var n :- CheckedMul(AbsDiff(price, last), BPS);
    var c :- CeilDivChecked(n, last);
    ToU64(c)
  }

  function DeviationOk(price: u64, anchorPrice: u64, anchorTs: i64, now: i64, maxDeviationBps: u16, windowSecs: u32): bool {
    if maxDeviationBps == 0 || anchorPrice == 0 then true else
    var elapsed := if SaturatingSub(now, anchorTs) >= 0 then SaturatingSub(now, anchorTs) else 0;
    var windows := if windowSecs == 0 then 1 else
                   if elapsed / windowSecs + 1 <= MAX_DEVIATION_WINDOWS then elapsed / windowSecs + 1 else MAX_DEVIATION_WINDOWS;
    match DeviationBps(price, anchorPrice)
    case Some(d) => d <= maxDeviationBps * windows
    case None => false
  }

  function ShouldReanchor(anchorPrice: u64, anchorTs: i64, now: i64, windowSecs: u32): bool {
    anchorPrice == 0 || SaturatingSub(now, anchorTs) >= windowSecs
  }

  /** The breaker compares exactly: |price - last| / last against the allowance, with no rounding slack and no overflow loophole. */
  lemma DeviationExact(price: u64, last: u64, allowed: nat)
    requires last > 0 && allowed <= U64_MAX
    ensures (match DeviationBps(price, last) case Some(d) => d <= allowed case None => false) <==> AbsDiff(price, last) * BPS <= allowed * last
  {
    var n := AbsDiff(price, last) * BPS;
    ProductFits(AbsDiff(price, last), BPS, U64_MAX, 10_000);
    CeilRounds(n, last);
    CeilIff(n, last, allowed);
  }

  datatype Anchor = Anchor(price: u64, ts: i64)

  datatype PriceTrade = PriceTrade(price: u64, now: i64)

  /** One trade against the anchor: refused if it deviates too far, and re-anchoring if the window has passed. */
  function Accept(a: Anchor, t: PriceTrade, maxDeviationBps: u16, windowSecs: u32): Option<Anchor> {
    if !DeviationOk(t.price, a.price, a.ts, t.now, maxDeviationBps, windowSecs) then None
    else if ShouldReanchor(a.price, a.ts, t.now, windowSecs) then Some(Anchor(t.price, t.now))
    else Some(a)
  }

  /** A run of accepted trades on a clock that does not go back. Prices are positive: an oracle price of 0 is refused. */
  ghost predicate Accepted(a: Anchor, trades: seq<PriceTrade>, maxDeviationBps: u16, windowSecs: u32)
  {
    if trades == [] then true else
    var t := trades[|trades| - 1];
    var front := trades[..|trades| - 1];
    && Accepted(a, front, maxDeviationBps, windowSecs)
    && t.price > 0
    && t.now >= (if front == [] then a.ts else front[|front| - 1].now)
    && Accept(After(a, front, maxDeviationBps, windowSecs), t, maxDeviationBps, windowSecs).Some?
  }

  function After(a: Anchor, trades: seq<PriceTrade>, maxDeviationBps: u16, windowSecs: u32): Anchor {
    if trades == [] then a else
    var before := After(a, trades[..|trades| - 1], maxDeviationBps, windowSecs);
    var next := Accept(before, trades[|trades| - 1], maxDeviationBps, windowSecs);
    if next.Some? then next.value else before
  }

  /** How many trades of the run moved the anchor. */
  function AnchorMoves(a: Anchor, trades: seq<PriceTrade>, maxDeviationBps: u16, windowSecs: u32): nat {
    if trades == [] then 0 else
    var front, t := trades[..|trades| - 1], trades[|trades| - 1];
    var before := After(a, front, maxDeviationBps, windowSecs);
    var moved := Accept(before, t, maxDeviationBps, windowSecs).Some? && ShouldReanchor(before.price, before.ts, t.now, windowSecs);
    AnchorMoves(a, front, maxDeviationBps, windowSecs) + if moved then 1 else 0
  }

  function Pow(b: nat, n: nat): nat {
    if n == 0 then 1 else b * Pow(b, n - 1)
  }

  lemma Rotate(x: int, y: int, z: int)
    ensures x * (y * z) == y * (x * z)
  {}

  lemma Associate(x: int, y: int, z: int)
    ensures x * (y * z) == x * y * z
  {}

  lemma {:induction false} PowAdd(b: nat, m: nat, n: nat)
    ensures Pow(b, m + n) == Pow(b, m) * Pow(b, n)
    decreases n
  {
    if n > 0 {
      PowAdd(b, m, n - 1);
      assert Pow(b, m + n) == b * Pow(b, m + (n - 1));
      Rotate(b, Pow(b, m), Pow(b, n - 1));
    }
  }

  /** Bernoulli: k steps of x compound to at least k times x. */
  lemma {:induction false} Bernoulli(b: nat, x: nat, k: nat)
    requires k >= 1
    ensures Pow(b, k - 1) * (b + k * x) <= Pow(b + x, k)
    decreases k
  {
    if k == 1 {
      assert Pow(b + x, 1) == (b + x) * Pow(b + x, 0);
    } else {
      Bernoulli(b, x, k - 1);
      var p, q := Pow(b, k - 2), Pow(b + x, k - 1);
      BernoulliStep(b, x, k, p, q);
    }
  }

  lemma BernoulliStep(b: nat, x: nat, k: nat, p: nat, q: nat)
    requires k >= 2 && p * (b + (k - 1) * x) <= q
    ensures b * p * (b + k * x) <= (b + x) * q
  {
    var y := (k - 1) * x;
    MulAdd(k - 1, 1, x);
    SquareStep(b, x, y);
    MulLe(b + x, p * (b + y), q);
    Rotate(b + x, p, b + y);
    MulLe(p, b * (b + y + x), (b + x) * (b + y));
    Rotate(p, b, b + y + x);
    Associate(b, p, b + y + x);
  }

  lemma SquareStep(b: nat, x: nat, y: nat)
    ensures b * (b + y + x) <= (b + x) * (b + y)
  {
    MulAdd(b, x, b + y);
    MulAdd(b + y, x, b);
    MulAdd(b, y, x);
    ProductFits(0, 0, x, y);
  }

  // ----- the bound over a run -----

  /** Anchor `a` is within `m` doubled steps of `start`. */
  ghost predicate WithinSteps(a: nat, start: nat, m: nat, d: nat) {
    a * Pow(10_000, m) <= start * Pow(10_000 + 2 * d, m)
  }

  /** Price `p` is within `m` doubled steps and one single step of `start`. */
  ghost predicate PriceWithin(p: nat, start: nat, m: nat, d: nat) {
    p * Pow(10_000, m + 1) <= start * Pow(10_000 + 2 * d, m) * (10_000 + d)
  }

  lemma {:induction false} OneMoreStep(p: nat, start: nat, m: nat, d: nat)
    requires PriceWithin(p, start, m, d)
    ensures PriceWithin(p, start, m + 1, d)
  {
    var low, high := Pow(10_000, m + 1), Pow(10_000 + 2 * d, m);
    var lhs, rhs := p * low, start * high * (10_000 + d);
    Rotate(p, 10_000, low);
    MulLe(10_000, lhs, rhs);
    assert rhs >= 0;
    assert (10_000 + 2 * d) * rhs == 10_000 * rhs + 2 * d * rhs by {
      MulAdd(10_000, 2 * d, rhs);
    }
    ProductFits(0, 0, 2 * d, rhs);
    Rotate(start, 10_000 + 2 * d, high);
    assert start * Pow(10_000 + 2 * d, m + 1) == (10_000 + 2 * d) * (start * high);
    Associate(10_000 + 2 * d, start * high, 10_000 + d);
  }

  lemma {:induction false} MoreSteps(p: nat, start: nat, m: nat, n: nat, d: nat)
    requires PriceWithin(p, start, m, d) && m <= n
    ensures PriceWithin(p, start, n, d)
    decreases n - m
  {
    if m < n {
      OneMoreStep(p, start, m, d);
      MoreSteps(p, start, m + 1, n, d);
    }
  }

  /** A price allowed k windows after its anchor: within one step of it if k = 0, within k doubled steps otherwise. */
  lemma AllowedPrice(p: nat, a: nat, k: nat, start: nat, m: nat, d: nat)
    requires WithinSteps(a, start, m, d)
    requires p * 10_000 <= a * (10_000 + d * (k + 1))
    ensures k == 0 ==> PriceWithin(p, start, m, d)
    ensures k >= 1 ==> WithinSteps(p, start, m + k, d)
  {
    var b := 10_000;
    if k == 0 {
      // p * b^(m+1) <= a * b^m * (b + d)
      MulLe(Pow(b, m), p * b, a * (b + d));
      Rearrange(p, b, Pow(b, m));
      Rearrange(a, b + d, Pow(b, m));
      MulLe(b + d, a * Pow(b, m), start * Pow(b + 2 * d, m));
    } else {
      // p * b^k <= a * (b + 2d)^k
      Bernoulli(b, 2 * d, k);
      var lift := Pow(b, k - 1);
      DoubleCovers(d, k);
      MulLe(a, b + d * (k + 1), b + k * (2 * d));
      MulLe(lift, p * b, a * (b + k * (2 * d)));
      Rearrange(p, b, lift);
      Rotate(lift, a, b + k * (2 * d));
      MulLe(a, lift * (b + k * (2 * d)), Pow(b + 2 * d, k));
      assert p * Pow(b, k) <= a * Pow(b + 2 * d, k);
      // and k more steps on top of m
      PowAdd(b, m, k);
      PowAdd(b + 2 * d, m, k);
      MulLe(Pow(b, m), p * Pow(b, k), a * Pow(b + 2 * d, k));
      Rotate(Pow(b, m), p, Pow(b, k));
      Rotate(Pow(b, m), a, Pow(b + 2 * d, k));
      Associate(a, Pow(b, m), Pow(b + 2 * d, k));
      MulLe(Pow(b + 2 * d, k), a * Pow(b, m), start * Pow(b + 2 * d, m));
      Associate(start, Pow(b + 2 * d, m), Pow(b + 2 * d, k));
    }
  }

  lemma Rearrange(x: int, y: int, z: int)
    ensures z * (x * y) == x * (y * z) && z * (x * y) == x * z * y
  {}

  lemma DoubleCovers(d: nat, k: nat)
    requires k >= 1
    ensures d * (k + 1) <= k * (2 * d)
  {
    MulLe(d, k + 1, 2 * k);
  }

  /** Windows the anchor has crossed so far, summed over its moves. */
  function Crossed(a: Anchor, trades: seq<PriceTrade>, d: u16, w: u32): nat
    requires w > 0
  {
    if trades == [] then 0 else
    var front, t := trades[..|trades| - 1], trades[|trades| - 1];
    var before := After(a, front, d, w);
    var moved := Accept(before, t, d, w).Some? && ShouldReanchor(before.price, before.ts, t.now, w);
    Crossed(a, front, d, w) + if moved && t.now >= before.ts then WindowsSince(before.ts, t.now, w) else 0
  }

  /** Whole windows between two times. */
  function WindowsSince(from: i64, now: i64, w: u32): nat
    requires w > 0 && now >= from
  {
    FloorDiv(now - from, w)
  }

  lemma WindowsSinceBound(from: i64, now: i64, w: u32)
    requires w > 0 && now >= from
    ensures w * WindowsSince(from, now, w) <= now - from
    ensures SaturatingSub(now, from) >= w <==> WindowsSince(from, now, w) >= 1
  {
    FloorIff(now - from, w, WindowsSince(from, now, w));
    FloorIff(now - from, w, 1);
  }

  /** What an accepted trade says about its price. */
  lemma AcceptedPrice(a: Anchor, t: PriceTrade, d: u16, w: u32)
    requires d > 0 && w > 0 && a.price > 0 && t.now >= a.ts && Accept(a, t, d, w).Some?
    ensures t.price * 10_000 <= a.price * (10_000 + d * (WindowsSince(a.ts, t.now, w) + 1))
  {
    AcceptedIff(a, t, d, w);
    WithinBounds(t.price, a.price, d, AllowedWindows(a, t.now, w), WindowsSince(a.ts, t.now, w) + 1);
  }

  lemma WithinBounds(p: nat, a: nat, d: nat, m: nat, n: nat)
    requires AbsDiff(p, a) * 10_000 <= d * m * a && m <= n
    ensures p * 10_000 <= a * (10_000 + d * n)
  {
    MulLe(d, m, n);
    MulLe(a, d * m, d * n);
    MulAdd(10_000, d * n, a);
  }

  /** The number of single bounds allowed `now`: one per window since the anchor, the current one included, at most 20. */
  function AllowedWindows(a: Anchor, now: i64, w: u32): nat {
    var elapsed := if w > 0 && now >= a.ts then WindowsSince(a.ts, now, w) else 0;
    if elapsed + 1 <= MAX_DEVIATION_WINDOWS then elapsed + 1 else MAX_DEVIATION_WINDOWS
  }

  /** The count, one by one: the first bound is always there, and one more for each whole window passed, up to 20. */
  lemma AllowedWindowsIs(a: Anchor, now: i64, w: u32, k: nat)
    ensures k <= AllowedWindows(a, now, w) <==> k <= 1 || (k <= 20 && w > 0 && w * (k - 1) <= now - a.ts)
  {
    if k >= 1 && w > 0 && now >= a.ts {
      FloorIff(now - a.ts, w, k - 1);
    } else if k >= 1 && w > 0 {
      MulLe(w, 0, k - 1);
    }
  }

  /** Saturating a difference of times changes nothing: by then more than 20 windows have passed. */
  lemma SaturationHarmless(elapsed: nat, w: u32)
    requires w > 0 && elapsed > 0x7fff_ffff_ffff_ffff
    ensures elapsed / w >= MAX_DEVIATION_WINDOWS && 0x7fff_ffff_ffff_ffff / w >= MAX_DEVIATION_WINDOWS
  {
    MulLe(MAX_DEVIATION_WINDOWS, w, 0xffff_ffff);
    FloorIff(elapsed, w, MAX_DEVIATION_WINDOWS);
    FloorIff(0x7fff_ffff_ffff_ffff, w, MAX_DEVIATION_WINDOWS);
  }

  /**
   Exactly when a price is accepted: always with the breaker off or no anchor set, and otherwise if it has
   moved by at most that many bounds, up or down. The anchor moves exactly when it is unset or a window old.
   */
  lemma AcceptedIff(a: Anchor, t: PriceTrade, d: u16, w: u32)
    ensures Accept(a, t, d, w).Some? <==>
      d == 0 || a.price == 0 || AbsDiff(t.price, a.price) * 10_000 <= d * AllowedWindows(a, t.now, w) * a.price
    ensures Accept(a, t, d, w).Some? ==>
      Accept(a, t, d, w).value == if a.price == 0 || t.now - a.ts >= w then Anchor(t.price, t.now) else a
  {
    if d > 0 && a.price > 0 {
      AllowanceIs(a, t, d, w);
    }
  }

  lemma AllowanceIs(a: Anchor, t: PriceTrade, d: u16, w: u32)
    requires d > 0 && a.price > 0
    ensures DeviationOk(t.price, a.price, a.ts, t.now, d, w) <==> AbsDiff(t.price, a.price) * 10_000 <= d * AllowedWindows(a, t.now, w) * a.price
  {
    var windows := AllowedWindows(a, t.now, w);
    MulLe(d, windows, 20);
    DeviationExact(t.price, a.price, d * windows);
    if w > 0 {
      ProgramWindows(a, t.now, w);
    }
    assert DeviationOk(t.price, a.price, a.ts, t.now, d, w) <==>
      match DeviationBps(t.price, a.price) case Some(x) => x <= d * windows case None => false;
  }

  lemma ProgramWindows(a: Anchor, now: i64, w: u32)
    requires w > 0
    ensures var elapsed := if SaturatingSub(now, a.ts) >= 0 then SaturatingSub(now, a.ts) else 0;
      AllowedWindows(a, now, w) == if elapsed / w + 1 <= MAX_DEVIATION_WINDOWS then elapsed / w + 1 else MAX_DEVIATION_WINDOWS
  {
    if now - a.ts > 0x7fff_ffff_ffff_ffff {
      SaturationHarmless(now - a.ts, w);
    } else if now < a.ts {
      assert 0 / w == 0;
    }
  }

  function LastNow(a: Anchor, trades: seq<PriceTrade>): i64 {
    if trades == [] then a.ts else trades[|trades| - 1].now
  }

  /** A trade that moves the anchor comes at least a window later, and pays for its move in windows. */
  lemma AnchorMove(start: Anchor, before: Anchor, t: PriceTrade, d: u16, w: u32, m: nat, moves: nat)
    requires d > 0 && w > 0 && before.price > 0 && start.ts <= before.ts <= t.now
    requires w * m <= before.ts - start.ts && w * moves <= before.ts - start.ts
    requires WithinSteps(before.price, start.price, m, d)
    requires Accept(before, t, d, w).Some? && ShouldReanchor(before.price, before.ts, t.now, w)
    ensures w * (m + WindowsSince(before.ts, t.now, w)) <= t.now - start.ts
    ensures w * (moves + 1) <= t.now - start.ts
    ensures WithinSteps(t.price, start.price, m + WindowsSince(before.ts, t.now, w), d)
  {
    var k := WindowsSince(before.ts, t.now, w);
    WindowsSinceBound(before.ts, t.now, w);
    AcceptedPrice(before, t, d, w);
    AllowedPrice(t.price, before.price, k, start.price, m, d);
    MulAdd(m, k, w);
    MulLe(w, 1, k);
    MulAdd(moves, 1, w);
  }

  /** The anchor after a run: reached in time, and within as many doubled steps as windows crossed. */
  lemma {:induction false} AnchorInvariant(a: Anchor, trades: seq<PriceTrade>, d: u16, w: u32)
    requires d > 0 && w > 0 && a.price > 0 && Accepted(a, trades, d, w)
    ensures var z := After(a, trades, d, w); z.price > 0 && a.ts <= z.ts <= LastNow(a, trades)
    ensures w * Crossed(a, trades, d, w) <= After(a, trades, d, w).ts - a.ts
    ensures w * AnchorMoves(a, trades, d, w) <= After(a, trades, d, w).ts - a.ts
    ensures WithinSteps(After(a, trades, d, w).price, a.price, Crossed(a, trades, d, w), d)
  {
    if trades != [] {
      var front, t := trades[..|trades| - 1], trades[|trades| - 1];
      AnchorInvariant(a, front, d, w);
      var before := After(a, front, d, w);
      if ShouldReanchor(before.price, before.ts, t.now, w) {
        AnchorMove(a, before, t, d, w, Crossed(a, front, d, w), AnchorMoves(a, front, d, w));
      }
    }
  }

  /**
   The deviation breaker over a whole run: `n` windows after the anchor was set, whatever was traded in
   between, the anchor has moved at most n times and the price is within n steps of twice the bound, plus one.
   */
  lemma DeviationOverRun(a: Anchor, trades: seq<PriceTrade>, d: u16, w: u32, n: nat)
    requires d > 0 && w > 0 && a.price > 0 && trades != [] && Accepted(a, trades, d, w)
    requires n == (trades[|trades| - 1].now - a.ts) / w
    ensures AnchorMoves(a, trades, d, w) <= n
    ensures trades[|trades| - 1].price * Pow(10_000, n + 1) <= a.price * Pow(10_000 + 2 * d, n) * (10_000 + d)
  {
    var front, t := trades[..|trades| - 1], trades[|trades| - 1];
    AnchorInvariant(a, front, d, w);
    AnchorInvariant(a, trades, d, w);
    FloorIff(t.now - a.ts, w, AnchorMoves(a, trades, d, w));
    var before := After(a, front, d, w);
    var k, m := WindowsSince(before.ts, t.now, w), Crossed(a, front, d, w);
    WindowsSinceBound(before.ts, t.now, w);
    AcceptedPrice(before, t, d, w);
    AllowedPrice(t.price, before.price, k, a.price, m, d);
    if k >= 1 {
      StepsSuffice(t.price, a.price, m + k, d);
    }
    MulAdd(m, k, w);
    FloorIff(t.now - a.ts, w, m + k);
    MoreSteps(t.price, a.price, m + k, n, d);
  }

  lemma StepsSuffice(p: nat, start: nat, m: nat, d: nat)
    requires WithinSteps(p, start, m, d)
    ensures PriceWithin(p, start, m, d)
  {
    var reached := start * Pow(10_000 + 2 * d, m);
    Rotate(p, 10_000, Pow(10_000, m));
    MulLe(10_000, p * Pow(10_000, m), reached);
    MulLe(reached, 10_000, 10_000 + d);
  }

  /** A price accepted k whole windows after the anchor is within one bound per window passed (and one in the first). */
  ghost predicate KeepsPromise(a: Anchor, t: PriceTrade, d: u16, k: nat) {
    AbsDiff(t.price, a.price) * 10_000 <= d * (if k == 0 then 1 else k) * a.price
  }

  ghost predicate AcceptedAfter(a: Anchor, t: PriceTrade, d: u16, w: u32, k: nat)
    requires w > 0
  {
    a.price > 0 && t.now >= a.ts && WindowsSince(a.ts, t.now, w) == k && Accept(a, t, d, w).Some?
  }

  /**
   Exactly when the comment's promise can be broken by one trade: from the end of the first window up to the
   cap of 20, when the window just begun counts on top of those passed.
   */
  lemma OneBoundPerWindowIff(d: u16, w: u32, k: nat)
    requires d > 0 && w > 0
    ensures (forall a, t :: AcceptedAfter(a, t, d, w, k) ==> KeepsPromise(a, t, d, k)) <==> !(1 <= k <= 19)
  {
    if 1 <= k <= 19 {
      var a, t := PromiseBroken(d, w, k);
    } else {
      forall a, t | AcceptedAfter(a, t, d, w, k) ensures KeepsPromise(a, t, d, k) {
        PromiseKept(a, t, d, w, k);
      }
    }
  }

  lemma PromiseBroken(d: u16, w: u32, k: nat) returns (a: Anchor, t: PriceTrade)
    requires d > 0 && w > 0 && 1 <= k <= 19
    ensures AcceptedAfter(a, t, d, w, k) && !KeepsPromise(a, t, d, k)
  {
    MulLe(w, k, 19);
    MulLe(d, k + 1, 20);
    var now, move := w * k, d * (k + 1);
    DivUnique(now, w, k, 0);
    a, t := Anchor(10_000, 0), PriceTrade(10_000 + move, now);
    assert AllowedWindows(a, now, w) == k + 1 && AbsDiff(t.price, a.price) == move;
    AcceptedIff(a, t, d, w);
    MulLt(d, k, k + 1);
  }

  lemma PromiseKept(a: Anchor, t: PriceTrade, d: u16, w: u32, k: nat)
    requires w > 0 && d > 0 && !(1 <= k <= 19) && AcceptedAfter(a, t, d, w, k)
    ensures KeepsPromise(a, t, d, k)
  {
    AcceptedIff(a, t, d, w);
    FewerBounds(t.price, a.price, d, AllowedWindows(a, t.now, w), if k == 0 then 1 else k);
  }

  lemma FewerBounds(p: nat, a: nat, d: nat, m: nat, n: nat)
    requires AbsDiff(p, a) * 10_000 <= d * m * a && m <= n
    ensures AbsDiff(p, a) * 10_000 <= d * n * a
  {
    MulLe(d, m, n);
    MulLe(a, d * m, d * n);
  }

  /** The run that takes two bounds when the first window is over, and a third at once. */
  function Overreach(d: u16, w: u32): seq<PriceTrade> {
    ProductFits(10_000 + 2 * d, 10_000 + d, 0x4_0000, 0x2_0000);
    [PriceTrade(10_000 * (10_000 + 2 * d), w), PriceTrade((10_000 + 2 * d) * (10_000 + d), w)]
  }

  /**
   One bound per window, as the comment on `deviation_ok` promises, holds while the first window lasts (the
   case n = 0 above). After one window it is too little, whatever the bound and the window: two bounds are
   accepted at once, which moves the anchor, and then another. The run attains the bound above for n = 1.
   */
  lemma OneStepPerWindowFails(d: u16, w: u32)
    requires d > 0 && w > 0
    ensures var a, trades := Anchor(100_000_000, 0), Overreach(d, w);
      && Accepted(a, trades, d, w)
      && trades[1].now - a.ts == w
      && trades[1].price * Pow(10_000, 2) > a.price * Pow(10_000 + d, 2)
      && trades[1].price * Pow(10_000, 2) == a.price * Pow(10_000 + 2 * d, 1) * (10_000 + d)
  {
    var a, trades := Anchor(100_000_000, 0), Overreach(d, w);
    var first, second := trades[0], trades[1];
    assert trades == [first, second] && trades[..1] == [first] && [first][..0] == [];
    var moved := Anchor(first.price, w);
    DivUnique(w, w, 1, 0);
    AcceptedIff(a, first, d, w);
    assert After(a, [first], d, w) == moved && Accepted(a, [first], d, w);
    assert AbsDiff(second.price, first.price) == (10_000 + 2 * d) * d by {
      Rearrange(10_000 + 2 * d, 10_000, 1);
      assert (10_000 + 2 * d) * (10_000 + d) == (10_000 + 2 * d) * 10_000 + (10_000 + 2 * d) * d;
    }
    AcceptedIff(moved, second, d, w);
    assert Accepted(a, trades, d, w);
    Exceeds(d);
  }

  lemma Exceeds(d: nat)
    requires d > 0
    ensures (10_000 + 2 * d) * (10_000 + d) * Pow(10_000, 2) > 100_000_000 * Pow(10_000 + d, 2)
    ensures (10_000 + 2 * d) * (10_000 + d) * Pow(10_000, 2) == 100_000_000 * Pow(10_000 + 2 * d, 1) * (10_000 + d)
  {
    assert Pow(10_000 + 2 * d, 1) == (10_000 + 2 * d) * Pow(10_000 + 2 * d, 0);
    assert Pow(10_000, 2) == 10_000 * Pow(10_000, 1) && Pow(10_000, 1) == 10_000 * Pow(10_000, 0);
    assert Pow(10_000 + d, 2) == (10_000 + d) * Pow(10_000 + d, 1) && Pow(10_000 + d, 1) == (10_000 + d) * Pow(10_000 + d, 0);
    MulLt(10_000 + d, 10_000 + d, 10_000 + 2 * d);
  }
}
