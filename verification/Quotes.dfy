/**
 Oracle quotes and spreads (programs/peg_desk/src/pricing.rs): exponents, quote units, weighted legs, and
 the effective spread.
 */
module Quotes {
  import opened Arith
  import opened Prelude
  import opened Pricing

  lemma {:induction false} Pow10Grows(n: nat, m: nat)
    requires n <= m
    ensures Pow10(n) <= Pow10(m)
    decreases m
  {
    if n < m {
      Pow10Grows(n, m - 1);
    }
  }

  lemma Pow10Step(n: nat)
    ensures Pow10(n + 3) == 1000 * Pow10(n)
  {
    assert Pow10(n + 1) == 10 * Pow10(n);
    assert Pow10(n + 2) == 10 * Pow10(n + 1);
  }

  lemma Pow10Fits(n: nat)
    requires n <= 30
    ensures Pow10(n) <= U128_MAX
  {
    Pow10Grows(n, 30);
    Pow10Step(0);
    Pow10Step(3);
    Pow10Step(6);
    Pow10Step(9);
    Pow10Step(12);
    Pow10Step(15);
    Pow10Step(18);
    Pow10Step(21);
    Pow10Step(24);
    Pow10Step(27);
  }

  function NormalizeTo1e8(value: u64, expo: i32): Option<u64> {
    var shift := expo + 8;  // checked_add: past i32 is past 30
    if !(-30 <= shift <= 30) then None
    else if shift >= 0 then
      Pow10Fits(shift);
      var n :- CheckedMul(value, Pow10(shift));
      ToU64(n)
    else
      Pow10Fits(-shift);
      ToU64(Quotient(value, Pow10(-shift)))
  }

  /** value * 10^expo at exponent -8, rounded down; only exponents within 30 of -8 are accepted. */
  lemma NormalizeExact(value: u64, expo: i32)
    ensures !(-38 <= expo <= 22) ==> NormalizeTo1e8(value, expo) == None
    ensures expo == -8 ==> NormalizeTo1e8(value, expo) == Some(value)
    ensures -8 <= expo <= 22 ==> Floors(NormalizeTo1e8(value, expo), value * Pow10(expo + 8), 1)
    ensures -38 <= expo < -8 ==> Floors(NormalizeTo1e8(value, expo), value, Pow10(-8 - expo))
  {
    if -38 <= expo < -8 {
      Pow10Fits(-8 - expo);
      FloorRounds(value, Pow10(-8 - expo));
    }
  }

  function ScaleQuote(rawPrice: u64, rawExpo: i32, quoteScale: u8, fxPrice: u64, fxExpo: i32): Option<u64> {
    var p :- NormalizeTo1e8(rawPrice, rawExpo);
    if quoteScale == QUOTE_USD then Some(p)
    else if quoteScale == QUOTE_USC then Some(p / 100)
    else if quoteScale == QUOTE_EUR then
      var fx :- NormalizeTo1e8(fxPrice, fxExpo);
      if fx == 0 then None else InDollars(p, fx)
    else None
  }

  /** A euro price at a rate, both at exponent -8. */
  function InDollars(p: u64, fx: u64): Option<u64> {
    var n :- CheckedMul(p, fx);
    ToU64(Quotient(n, PRICE_SCALE))
  }

  lemma InDollarsExact(p: u64, fx: u64)
    ensures Floors(InDollars(p, fx), p * fx, PRICE_SCALE)
  {
    ProductFits(p, fx, U64_MAX, U64_MAX);
    FloorRounds(p * fx, PRICE_SCALE);
  }

  /** Dollars: as they are. Cents: a hundredth, rounded down. Euros: times a non-zero rate, rounded down. Nothing else. */
  lemma ScaleQuoteExact(rawPrice: u64, rawExpo: i32, quoteScale: u8, fxPrice: u64, fxExpo: i32)
    ensures var p, fx := NormalizeTo1e8(rawPrice, rawExpo), NormalizeTo1e8(fxPrice, fxExpo);
      var r := ScaleQuote(rawPrice, rawExpo, quoteScale, fxPrice, fxExpo);
      && (p.None? || quoteScale > 2 ==> r == None)
      && (p.Some? && quoteScale == QUOTE_USD ==> r == p)
      && (p.Some? && quoteScale == QUOTE_USC ==> r.Some? && Floors(r, p.value, 100))
      && (p.Some? && quoteScale == QUOTE_EUR ==>
            if fx.None? || fx.value == 0 then r == None else Floors(r, p.value * fx.value, PRICE_SCALE))
  {
    var p, fx := NormalizeTo1e8(rawPrice, rawExpo), NormalizeTo1e8(fxPrice, fxExpo);
    if p.Some? && quoteScale == QUOTE_EUR && fx.Some? && fx.value > 0 {
      InDollarsExact(p.value, fx.value);
    }
  }

  // ----- weighted legs -----

  datatype Leg = Leg(value: u64, weightBps: u16)

  function Weights(legs: seq<Leg>): nat {
    if legs == [] then 0 else Weights(legs[..|legs| - 1]) + legs[|legs| - 1].weightBps
  }

  function Dot(legs: seq<Leg>): nat {
    if legs == [] then 0 else Dot(legs[..|legs| - 1]) + legs[|legs| - 1].value * legs[|legs| - 1].weightBps
  }

  /** A weighted sum lies between the smallest and the largest leg, times the weight. */
  lemma {:induction false} DotBounds(legs: seq<Leg>, lo: nat, hi: nat)
    requires forall i :: 0 <= i < |legs| ==> lo <= legs[i].value <= hi
    ensures lo * Weights(legs) <= Dot(legs) <= hi * Weights(legs)
  {
    if legs != [] {
      var front, last := legs[..|legs| - 1], legs[|legs| - 1];
      DotBounds(front, lo, hi);
      ProductFits(last.value, last.weightBps, hi, last.weightBps);
      ProductFits(lo, last.weightBps, last.value, last.weightBps);
      assert lo * (Weights(front) + last.weightBps) == lo * Weights(front) + lo * last.weightBps;
      assert hi * (Weights(front) + last.weightBps) == hi * Weights(front) + hi * last.weightBps;
    }
  }

  /** Every leg counts once, with its own value and weight, wherever it stands. */
  lemma {:induction false} LegsAddUp(before: seq<Leg>, leg: Leg, after: seq<Leg>)
    ensures Weights(before + [leg] + after) == Weights(before) + leg.weightBps + Weights(after)
    ensures Dot(before + [leg] + after) == Dot(before) + leg.value * leg.weightBps + Dot(after)
    decreases |after|
  {
    var legs := before + [leg] + after;
    if after == [] {
      assert legs[..|legs| - 1] == before;
    } else {
      LegsAddUp(before, leg, after[..|after| - 1]);
      assert legs[..|legs| - 1] == before + [leg] + after[..|after| - 1];
    }
  }

  lemma {:induction false} PrefixDot(legs: seq<Leg>, i: nat)
    requires i <= |legs|
    ensures Dot(legs[..i]) <= Dot(legs)
  {
    if i == |legs| {
      assert legs[..i] == legs;
    } else {
      var front := legs[..|legs| - 1];
      PrefixDot(front, i);
      assert front[..i] == legs[..i];
    }
  }

  /** Rounded-down weighted average. With weights adding up to 10 000 it always exists; otherwise never. */
  method WeightedSum(legs: seq<Leg>) returns (r: Option<u64>)
    ensures Weights(legs) != 10_000 ==> r == None
    ensures Weights(legs) == 10_000 ==> r.Some? && Floors(r, Dot(legs), BPS)
  {
    DotBounds(legs, 0, U64_MAX);
    var wsum := 0;
    var acc: u128 := 0;
    for i := 0 to |legs|
      invariant wsum == Weights(legs[..i]) && acc == Dot(legs[..i])
    {
      assert legs[..i + 1][..i] == legs[..i];
      PrefixDot(legs, i + 1);
      wsum := wsum + legs[i].weightBps;
      var term := CheckedMul(legs[i].value, legs[i].weightBps);
      ProductFits(legs[i].value, legs[i].weightBps, U64_MAX, 0xffff);
      if term.None? || acc + term.value > U128_MAX {
        return None;
      }
      acc := acc + term.value;
    }
    assert legs[..|legs|] == legs;
    if wsum != BPS {
      return None;
    }
    FloorRounds(acc, BPS);
    return ToU64(Quotient(acc, BPS));
  }

  /** A composite price is never below its cheapest leg nor above its dearest. */
  lemma CompositeWithinLegs(legs: seq<Leg>, r: u64, lo: nat, hi: nat)
    requires Weights(legs) == 10_000 && Floors(Some(r), Dot(legs), BPS)
    requires forall i :: 0 <= i < |legs| ==> lo <= legs[i].value <= hi
    ensures lo <= r <= hi
  {
    DotBounds(legs, lo, hi);
  }

  // ----- the effective spread -----

  function Min(a: int, b: int): int {
    if a <= b then a else b
  }

  /** Extra spread for an old price: nothing up to half the maximum age, then linear up to `spread`. */
  function AgePenalty(spread: u16, age: u64, maxAge: u32): nat {
    var half := maxAge / 2;
    if age > half && maxAge > half then CeilDiv(spread * (Min(age, maxAge) - half), maxAge - half) else 0
  }

  lemma AgeTermFits(spread: u16, age: u64, maxAge: u32)
    requires age > maxAge / 2 && maxAge > maxAge / 2
    ensures var over := Min(age, maxAge) - maxAge / 2;
      0 <= spread * over <= U128_MAX && CeilDivChecked(spread * over, maxAge - maxAge / 2) == Some(AgePenalty(spread, age, maxAge))
  {
    ProductFits(spread, Min(age, maxAge) - maxAge / 2, 0xffff, 0xffff_ffff);
  }

  function RawSpread(spread: u16, closed: u16, confMult: u16, conf: u64, price: u64, age: u64, maxAge: u32,
                     status: u8, reserveRatioBps: u64, warnBps: u16): nat
    requires price > 0
  {
    var s := (if status == STATUS_CLOSED then closed else spread) + CeilDiv(confMult * conf * 100, price) + AgePenalty(spread, age, maxAge);
    if reserveRatioBps < warnBps then 2 * s else s
  }

  /** The surcharge for uncertainty: the multiplier times the confidence in percent of the price, rounded up. */
  ghost predicate Surcharge(s: nat, confMult: u16, conf: u64, price: u64) {
    confMult * conf * 100 <= price * s < confMult * conf * 100 + price
  }

  /**
   The formula, part by part: the base spread for the market's status, the surcharge for uncertainty and the
   penalty for age, all of it twice when the reserve ratio is below its warning level.
   */
  lemma RawSpreadIs(spread: u16, closed: u16, confMult: u16, conf: u64, price: u64, age: u64, maxAge: u32,
                    status: u8, ratio: u64, warnBps: u16, surcharge: nat)
    requires price > 0 && Surcharge(surcharge, confMult, conf, price)
    ensures var once := (if status == 1 then closed else spread) + surcharge + AgePenalty(spread, age, maxAge);
      RawSpread(spread, closed, confMult, conf, price, age, maxAge, status, ratio, warnBps) == if ratio < warnBps then once + once else once
  {
    MulLe(confMult, 0, conf);
    CeilIs(confMult * conf * 100, price, surcharge);
  }

  /** Between half the maximum age and all of it, the penalty is the part of the base spread that the age makes up, rounded up. */
  lemma AgePenaltyIs(spread: u16, age: u64, maxAge: u32)
    requires maxAge / 2 < age <= maxAge
    ensures var span, over := maxAge - maxAge / 2, age - maxAge / 2;
      spread * over <= span * AgePenalty(spread, age, maxAge) < spread * over + span
  {
    var span, over := maxAge - maxAge / 2, age - maxAge / 2;
    MulLe(spread, 0, over);
    CeilIs(spread * over, span, AgePenalty(spread, age, maxAge));
  }

  function SaturatingAdd(a: u128, b: u128): u128 {
    Min(a + b, U128_MAX)
  }

  /** The program's steps, saturating and checked, give the plain formula clamped to the ceiling. */
  method EffectiveSpreadBps(spread: u16, closed: u16, confMult: u16, conf: u64, price: u64, age: u64, maxAge: u32,
                            status: u8, reserveRatioBps: u64, warnBps: u16) returns (r: u16)
    ensures r <= MAX_SPREAD_BPS
    ensures price == 0 ==> r == MAX_SPREAD_BPS
    ensures price > 0 ==>
      r == Min(RawSpread(spread, closed, confMult, conf, price, age, maxAge, status, reserveRatioBps, warnBps), MAX_SPREAD_BPS)
  {
    if price == 0 {
      return MAX_SPREAD_BPS;
    }
    var s: u128 := if status == STATUS_CLOSED then closed else spread;
    ProductFits(confMult, conf, 0xffff, U64_MAX);
    var confTerm := CeilDivChecked(confMult * conf * 100, price);
    s := SaturatingAdd(s, confTerm.value);
    var half: u64 := maxAge / 2;
    if age > half && maxAge > half {
      var over: u64 := (if age <= maxAge then age else maxAge) - half;
      var window: u64 := maxAge - half;
      AgeTermFits(spread, age, maxAge);
      var pen := CeilDivChecked(spread * over, window);
      s := SaturatingAdd(s, pen.value);
    }
    if reserveRatioBps < warnBps {
      s := Min(2 * s, U128_MAX);
    }
    r := Min(s, MAX_SPREAD_BPS);
  }

  lemma CeilMonotone(x: nat, y: nat, d: nat)
    requires d > 0 && x <= y
    ensures CeilDiv(x, d) <= CeilDiv(y, d)
  {
    CeilIff(y, d, CeilDiv(y, d));
    CeilIff(x, d, CeilDiv(y, d));
  }

  /** Past its maximum age a price costs the whole base spread on top, and never more. */
  lemma AgePenaltyRange(spread: u16, age: u64, maxAge: u32)
    ensures 0 <= AgePenalty(spread, age, maxAge) <= spread
    ensures age >= maxAge > 0 ==> AgePenalty(spread, age, maxAge) == spread
    ensures age <= maxAge / 2 ==> AgePenalty(spread, age, maxAge) == 0
  {
    var half := maxAge / 2;
    if age > half && maxAge > half {
      var over, window := Min(age, maxAge) - half, maxAge - half;
      MulLe(spread, over, window);
      CeilIff(spread * over, window, spread);
      if over == window && spread > 0 {
        CeilIff(spread * over, window, spread - 1);
        MulLt(window, spread - 1, spread);
      }
    }
  }

  /** More doubt never narrows the spread: it grows with the confidence interval, with age, and when the reserve runs low. */
  lemma SpreadGrowsWithDoubt(spread: u16, closed: u16, confMult: u16, conf: u64, conf': u64, price: u64, age: u64, age': u64,
                             maxAge: u32, status: u8, ratio: u64, ratio': u64, warnBps: u16)
    requires price > 0 && conf <= conf' && age <= age' && ratio >= ratio'
    ensures RawSpread(spread, closed, confMult, conf, price, age, maxAge, status, ratio, warnBps)
         <= RawSpread(spread, closed, confMult, conf', price, age', maxAge, status, ratio', warnBps)
  {
    MulLe(confMult, conf, conf');
    CeilMonotone(confMult * conf * 100, confMult * conf' * 100, price);
    AgePenaltyGrows(spread, age, age', maxAge);
  }

  lemma AgePenaltyGrows(spread: u16, age: u64, age': u64, maxAge: u32)
    requires age <= age'
    ensures AgePenalty(spread, age, maxAge) <= AgePenalty(spread, age', maxAge)
  {
    var half := maxAge / 2;
    if age > half && maxAge > half {
      MulLe(spread, Min(age, maxAge) - half, Min(age', maxAge) - half);
      CeilMonotone(spread * (Min(age, maxAge) - half), spread * (Min(age', maxAge) - half), maxAge - half);
    }
  }
}
