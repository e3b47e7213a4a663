/**
 Peg Desk pricing (programs/peg_desk/src/pricing.rs): u64 inputs and results, u128 intermediates, checked
 operations that give `None` on overflow or division by zero.

 Each function is written with the program's own checks and shown to return `Some` of the exactly rounded
 rational result precisely when that result fits in 64 bits.
 */
module Pricing {
  import opened Arith
  import opened Prelude

  const U128_MAX: nat := 0xffff_ffff_ffff_ffff_ffff_ffff_ffff_ffff

  type u8 = x: int | 0 <= x <= 0xff
  type u16 = x: int | 0 <= x <= 0xffff
  type u32 = x: int | 0 <= x <= 0xffff_ffff
  type u64 = x: int | 0 <= x <= U64_MAX
  type u128 = x: int | 0 <= x <= U128_MAX
  type i32 = x: int | -0x8000_0000 <= x <= 0x7fff_ffff

  const PRICE_SCALE: u64 := 100_000_000
  const BPS: u64 := 10_000
  const MAX_SPREAD_BPS: u16 := 5_000
  const STATUS_CLOSED: u8 := 1
  const QUOTE_USD: u8 := 0
  const QUOTE_USC: u8 := 1
  const QUOTE_EUR: u8 := 2

  // ----- exact rounding -----

  /** `o` is n / d rounded down, or `None` when that does not fit in 64 bits. */
  ghost predicate Floors(o: Option<u64>, n: nat, d: nat) {
    match o
    case Some(r) => d * r <= n < d * (r + 1)
    case None => d * (U64_MAX + 1) <= n
  }

  /** `o` is n / d rounded up, or `None` when that does not fit in 64 bits. */
  ghost predicate Ceils(o: Option<u64>, n: nat, d: nat) {
    match o
    case Some(r) => n <= d * r && (r > 0 ==> d * (r - 1) < n)
    case None => d * U64_MAX < n
  }

  /** Rounding has one result. */
  lemma FloorsUnique(o: Option<u64>, p: Option<u64>, n: nat, d: nat)
    requires d > 0 && Floors(o, n, d) && Floors(p, n, d)
    ensures o == p
  {
    var x: nat, y: nat := if o.Some? then o.value else U64_MAX + 1, if p.Some? then p.value else U64_MAX + 1;
    if x < y {
      MulLe(d, x + 1, y);
      assert false;
    } else if y < x {
      MulLe(d, y + 1, x);
      assert false;
    }
  }

  lemma CeilsUnique(o: Option<u64>, p: Option<u64>, n: nat, d: nat)
    requires d > 0 && Ceils(o, n, d) && Ceils(p, n, d)
    ensures o == p
  {
    var x: nat, y: nat := if o.Some? then o.value else U64_MAX + 1, if p.Some? then p.value else U64_MAX + 1;
    if x < y {
      MulLe(d, x, y - 1);
      assert false;
    } else if y < x {
      MulLe(d, y, x - 1);
      assert false;
    }
  }

  // ----- checked arithmetic -----

  function ToU64(v: u128): Option<u64> {
    if v <= U64_MAX then Some(v) else None
  }

  function CheckedMul(a: u128, b: u128): Option<u128> {
    if a * b <= U128_MAX then Some(a * b) else None
  }

  /** Division never overflows. */
  function Quotient(n: u128, d: u128): (q: u128)
    requires d > 0
    ensures q == n / d
  {
    QuotientFits(n, d);
    n / d
  }

  lemma QuotientFits(n: nat, d: nat)
    requires d > 0
    ensures 0 <= n / d <= n
  {
    FloorIff(n, d, n / d);
    MulLe(n / d, 1, d);
  }

  function CeilDivChecked(n: u128, d: u128): Option<u128> {
    if d == 0 then None else
    assert n % d != 0 ==> n / d < U128_MAX by {
      if n % d != 0 {
        CeilFits(n, d);
      }
    }
    Some(CeilDiv(n, d))
  }

  /** Adding the rounding unit cannot overflow: a quotient with a remainder is below its dividend. */
  lemma CeilFits(n: nat, d: nat)
    requires d > 0 && n % d != 0
    ensures n / d < n
  {
    assert d >= 2;
    assert n == d * (n / d) + n % d;
    MulLe(n / d, 2, d);
  }

  lemma FloorRounds(n: u128, d: u128)
    requires d > 0
    ensures Floors(ToU64(Quotient(n, d)), n, d)
  {
    var q := n / d;
    FloorIff(n, d, q);
    FloorIff(n, d, q + 1);
    FloorIff(n, d, U64_MAX + 1);
  }

  lemma CeilRounds(n: u128, d: u128)
    requires d > 0
    ensures CeilDivChecked(n, d).Some? && Ceils(ToU64(CeilDivChecked(n, d).value), n, d)
  {
    var q := CeilDiv(n, d);
    CeilIff(n, d, q);
    if q > 0 {
      CeilIff(n, d, q - 1);
    }
    CeilIff(n, d, U64_MAX);
  }

  lemma ProductFits(a: nat, b: nat, x: nat, y: nat)
    requires a <= x && b <= y
    ensures a * b <= x * y
  {
    MulLe(a, b, y);
    MulLe(y, a, x);
  }

  // ----- ask and bid -----

  function Ask(price: u64, spreadBps: u16): Option<u64> {
    var n :- CheckedMul(price, BPS + spreadBps);
    var c :- CeilDivChecked(n, BPS);
    ToU64(c)
  }

  function Bid(price: u64, spreadBps: u16): Option<u64> {
    var keep := if spreadBps <= BPS then BPS - spreadBps else 0;
    var n :- CheckedMul(price, keep);
    ToU64(Quotient(n, BPS))
  }

  lemma AskExact(price: u64, spreadBps: u16)
    ensures Ceils(Ask(price, spreadBps), price * (BPS + spreadBps), BPS)
    ensures Ask(price, spreadBps).Some? ==> price <= Ask(price, spreadBps).value
  {
    ProductFits(price, BPS + spreadBps, U64_MAX, 0x1_ffff);
    CeilRounds(price * (BPS + spreadBps), BPS);
    MulLe(price, BPS, BPS + spreadBps);
  }

  /** A bid always exists and never exceeds the price; at a spread of 100% or more it is zero. */
  lemma BidExact(price: u64, spreadBps: u16)
    ensures Floors(Bid(price, spreadBps), price * (if spreadBps <= BPS then BPS - spreadBps else 0), BPS)
    ensures Bid(price, spreadBps).Some? && Bid(price, spreadBps).value <= price
  {
    var keep := if spreadBps <= BPS then BPS - spreadBps else 0;
    ProductFits(price, keep, U64_MAX, 10_000);
    FloorRounds(price * keep, BPS);
    MulLe(price, keep, BPS);
  }

  // ----- conversions -----

  function CoinOutForUsdc(usdcIn: u64, ask: u64): Option<u64> {
    if ask == 0 then None else
    var n :- CheckedMul(usdcIn, PRICE_SCALE);
    ToU64(Quotient(n, ask))
  }

  function UsdcInForCoin(coinOut: u64, ask: u64): Option<u64> {
    var n :- CheckedMul(coinOut, ask);
    var c :- CeilDivChecked(n, PRICE_SCALE);
    ToU64(c)
  }

  function UsdcOutForCoin(coinIn: u64, bid: u64): Option<u64> {
    var n :- CheckedMul(coinIn, bid);
    ToU64(Quotient(n, PRICE_SCALE))
  }

  lemma CoinOutExact(usdcIn: u64, ask: u64)
    ensures ask == 0 ==> CoinOutForUsdc(usdcIn, ask) == None
    ensures ask > 0 ==> Floors(CoinOutForUsdc(usdcIn, ask), usdcIn * PRICE_SCALE, ask)
  {
    ProductFits(usdcIn, PRICE_SCALE, U64_MAX, 100_000_000);
    if ask > 0 {
      FloorRounds(usdcIn * PRICE_SCALE, ask);
    }
  }

  lemma UsdcInExact(coinOut: u64, ask: u64)
    ensures Ceils(UsdcInForCoin(coinOut, ask), coinOut * ask, PRICE_SCALE)
  {
    ProductFits(coinOut, ask, U64_MAX, U64_MAX);
    CeilRounds(coinOut * ask, PRICE_SCALE);
  }

  lemma UsdcOutExact(coinIn: u64, bid: u64)
    ensures Floors(UsdcOutForCoin(coinIn, bid), coinIn * bid, PRICE_SCALE)
  {
    ProductFits(coinIn, bid, U64_MAX, U64_MAX);
    FloorRounds(coinIn * bid, PRICE_SCALE);
  }

  /**
   Exact-in and exact-out fit together: what buy_exact_out charges is the least payment that buys at least
   that much coin.
   */
  lemma LeastPayment(coin: u64, ask: u64, pay: u64)
    requires ask > 0 && UsdcInForCoin(coin, ask).Some? && CoinOutForUsdc(pay, ask).Some?
    ensures UsdcInForCoin(coin, ask).value <= pay <==> coin <= CoinOutForUsdc(pay, ask).value
  {
    UsdcInExact(coin, ask);
    CoinOutExact(pay, ask);
    var u, c := UsdcInForCoin(coin, ask).value, CoinOutForUsdc(pay, ask).value;
    // both sides say coin * ask <= pay * PRICE_SCALE
    if u <= pay {
      MulLe(PRICE_SCALE, u, pay);
      if c < coin {
        MulLe(ask, c + 1, coin);
        assert false;
      }
    } else {
      MulLe(PRICE_SCALE, pay, u - 1);
      if coin <= c {
        MulLe(ask, coin, c);
        assert false;
      }
    }
  }

  // ----- splitting a trade -----

  function Total(xs: seq<u64>): nat {
    if xs == [] then 0 else xs[0] + Total(xs[1..])
  }

  /** Coin bought by paying the parts one after another; `None` if one of the trades fails. */
  function CoinOutInParts(parts: seq<u64>, ask: u64): Option<nat> {
    if parts == [] then Some(0) else
    var c :- CoinOutForUsdc(parts[0], ask);
    var rest :- CoinOutInParts(parts[1..], ask);
    Some(c + rest)
  }

  function UsdcOutInParts(parts: seq<u64>, bid: u64): Option<nat> {
    if parts == [] then Some(0) else
    var c :- UsdcOutForCoin(parts[0], bid);
    var rest :- UsdcOutInParts(parts[1..], bid);
    Some(c + rest)
  }

  function UsdcInInParts(parts: seq<u64>, ask: u64): Option<nat> {
    if parts == [] then Some(0) else
    var c :- UsdcInForCoin(parts[0], ask);
    var rest :- UsdcInInParts(parts[1..], ask);
    Some(c + rest)
  }

  /** Trading in parts is trading each of them, and fails exactly when one of the trades does. */
  lemma PartsAddUp(parts: seq<u64>, last: u64, quote: u64)
    ensures CoinOutInParts([], quote) == UsdcOutInParts([], quote) == UsdcInInParts([], quote) == Some(0)
    ensures CoinOutInParts(parts + [last], quote) == Plus(CoinOutInParts(parts, quote), CoinOutForUsdc(last, quote))
    ensures UsdcOutInParts(parts + [last], quote) == Plus(UsdcOutInParts(parts, quote), UsdcOutForCoin(last, quote))
    ensures UsdcInInParts(parts + [last], quote) == Plus(UsdcInInParts(parts, quote), UsdcInForCoin(last, quote))
  {
    CoinOutAddsUp(parts, last, quote);
    UsdcOutAddsUp(parts, last, quote);
    UsdcInAddsUp(parts, last, quote);
  }

  lemma {:induction false} CoinOutAddsUp(parts: seq<u64>, last: u64, quote: u64)
    ensures CoinOutInParts([], quote) == Some(0)
    ensures CoinOutInParts(parts + [last], quote) == Plus(CoinOutInParts(parts, quote), CoinOutForUsdc(last, quote))
  {
    if parts == [] {
      assert parts + [last] == [last] && [last][1..] == [];
      OnlyOne(CoinOutForUsdc(last, quote), CoinOutInParts([], quote));
    } else {
      CoinOutAddsUp(parts[1..], last, quote);
      assert (parts + [last])[1..] == parts[1..] + [last];
      PlusAssociates(CoinOutForUsdc(parts[0], quote), CoinOutInParts(parts[1..], quote), CoinOutForUsdc(last, quote));
    }
  }

  lemma {:induction false} UsdcOutAddsUp(parts: seq<u64>, last: u64, quote: u64)
    ensures UsdcOutInParts([], quote) == Some(0)
    ensures UsdcOutInParts(parts + [last], quote) == Plus(UsdcOutInParts(parts, quote), UsdcOutForCoin(last, quote))
  {
    if parts == [] {
      assert parts + [last] == [last] && [last][1..] == [];
      OnlyOne(UsdcOutForCoin(last, quote), UsdcOutInParts([], quote));
    } else {
      UsdcOutAddsUp(parts[1..], last, quote);
      assert (parts + [last])[1..] == parts[1..] + [last];
      PlusAssociates(UsdcOutForCoin(parts[0], quote), UsdcOutInParts(parts[1..], quote), UsdcOutForCoin(last, quote));
    }
  }

  lemma {:induction false} UsdcInAddsUp(parts: seq<u64>, last: u64, quote: u64)
    ensures UsdcInInParts([], quote) == Some(0)
    ensures UsdcInInParts(parts + [last], quote) == Plus(UsdcInInParts(parts, quote), UsdcInForCoin(last, quote))
  {
    if parts == [] {
      assert parts + [last] == [last] && [last][1..] == [];
      OnlyOne(UsdcInForCoin(last, quote), UsdcInInParts([], quote));
    } else {
      UsdcInAddsUp(parts[1..], last, quote);
      assert (parts + [last])[1..] == parts[1..] + [last];
      PlusAssociates(UsdcInForCoin(parts[0], quote), UsdcInInParts(parts[1..], quote), UsdcInForCoin(last, quote));
    }
  }

  lemma OnlyOne(a: Option<nat>, none: Option<nat>)
    requires none == Some(0)
    ensures Plus(a, none) == Plus(none, a) == a
  {}

  lemma PlusAssociates(a: Option<nat>, b: Option<nat>, c: Option<nat>)
    ensures Plus(a, Plus(b, c)) == Plus(Plus(a, b), c)
  {}

  function Plus(a: Option<nat>, b: Option<nat>): Option<nat> {
    if a.Some? && b.Some? then Some(a.value + b.value) else None
  }

  lemma {:induction false} PartsCoinBound(parts: seq<u64>, ask: u64)
    requires ask > 0 && CoinOutInParts(parts, ask).Some?
    ensures ask * CoinOutInParts(parts, ask).value <= PRICE_SCALE * Total(parts)
  {
    if parts != [] {
      PartsCoinBound(parts[1..], ask);
      CoinOutExact(parts[0], ask);
      var c, rest := CoinOutForUsdc(parts[0], ask).value, CoinOutInParts(parts[1..], ask).value;
      assert ask * (c + rest) == ask * c + ask * rest;
    }
  }

  lemma {:induction false} PartsSaleBound(parts: seq<u64>, bid: u64)
    requires UsdcOutInParts(parts, bid).Some?
    ensures PRICE_SCALE * UsdcOutInParts(parts, bid).value <= Total(parts) * bid
  {
    if parts != [] {
      PartsSaleBound(parts[1..], bid);
      UsdcOutExact(parts[0], bid);
      MulAdd(parts[0], Total(parts[1..]), bid);
    }
  }

  lemma {:induction false} PartsCostBound(parts: seq<u64>, ask: u64)
    requires UsdcInInParts(parts, ask).Some?
    ensures Total(parts) * ask <= PRICE_SCALE * UsdcInInParts(parts, ask).value
  {
    if parts != [] {
      PartsCostBound(parts[1..], ask);
      UsdcInExact(parts[0], ask);
      MulAdd(parts[0], Total(parts[1..]), ask);
    }
  }

  /** Splitting one trade into many at the same ask or bid never helps the trader. */
  lemma SplittingNeverHelps(parts: seq<u64>, whole: u64, quote: u64)
    requires whole == Total(parts) && quote > 0
    ensures CoinOutInParts(parts, quote).Some? && CoinOutForUsdc(whole, quote).Some? ==>
      CoinOutInParts(parts, quote).value <= CoinOutForUsdc(whole, quote).value
    ensures UsdcOutInParts(parts, quote).Some? && UsdcOutForCoin(whole, quote).Some? ==>
      UsdcOutInParts(parts, quote).value <= UsdcOutForCoin(whole, quote).value
    ensures UsdcInInParts(parts, quote).Some? && UsdcInForCoin(whole, quote).Some? ==>
      UsdcInInParts(parts, quote).value >= UsdcInForCoin(whole, quote).value
  {
    CoinOutExact(whole, quote);
    UsdcOutExact(whole, quote);
    UsdcInExact(whole, quote);
    if CoinOutInParts(parts, quote).Some? && CoinOutForUsdc(whole, quote).Some? {
      PartsCoinBound(parts, quote);
      FloorAtLeast(quote, CoinOutInParts(parts, quote).value, CoinOutForUsdc(whole, quote).value, whole * PRICE_SCALE);
    }
    if UsdcOutInParts(parts, quote).Some? && UsdcOutForCoin(whole, quote).Some? {
      PartsSaleBound(parts, quote);
      FloorAtLeast(PRICE_SCALE, UsdcOutInParts(parts, quote).value, UsdcOutForCoin(whole, quote).value, whole * quote);
    }
    if UsdcInInParts(parts, quote).Some? && UsdcInForCoin(whole, quote).Some? {
      PartsCostBound(parts, quote);
      var cost: int, least: int := UsdcInInParts(parts, quote).value, UsdcInForCoin(whole, quote).value;
      assert least == 0 ==> PRICE_SCALE * (least - 1) < 0;
      MulCancelLt(PRICE_SCALE, least - 1, cost);
    }
  }

  lemma FloorAtLeast(d: nat, x: nat, floor: nat, n: nat)
    requires d * x <= n < d * (floor + 1)
    ensures x <= floor
  {
    if x > floor {
      MulLe(d, floor + 1, x);
      assert false;
    }
  }

  // ----- ratio and confidence -----

  /** `u64::MAX` when nothing is owed; a quotient that does not fit saturates there too. */
  function ReserveRatioBps(reserveUsdc: u64, supplyCoin: u64, price: u64): u64 {
    if supplyCoin == 0 || price == 0 then U64_MAX else
    var bps := CheckedMul(reserveUsdc, BPS);
    var n := if bps.Some? then CheckedMul(bps.value, PRICE_SCALE) else None;
    var d := CheckedMul(supplyCoin, price);
    match (n, d)
    case (Some(n), Some(d)) =>
      if d == 0 then 0 else
      var q := ToU64(Quotient(n, d));
      if q.Some? then q.value else U64_MAX
    case (None, Some(_)) => U64_MAX
    case _ => 0
  }

  /** The ratio in bps, rounded down and capped at u64::MAX; in particular 10 000 is exactly full backing. */
  lemma ReserveRatioExact(reserveUsdc: u64, supplyCoin: u64, price: u64)
    ensures supplyCoin == 0 || price == 0 ==> ReserveRatioBps(reserveUsdc, supplyCoin, price) == U64_MAX
    ensures supplyCoin > 0 && price > 0 ==>
      forall bps: u64 :: bps <= ReserveRatioBps(reserveUsdc, supplyCoin, price) <==> supplyCoin * price * bps <= reserveUsdc * BPS * PRICE_SCALE
  {
    if supplyCoin > 0 && price > 0 {
      ProductFits(reserveUsdc, BPS, U64_MAX, 10_000);
      ProductFits(reserveUsdc * BPS, PRICE_SCALE, U64_MAX * 10_000, 100_000_000);
      ProductFits(supplyCoin, price, U64_MAX, U64_MAX);
      ProductFits(1, 1, supplyCoin, price);
      var n, d := reserveUsdc * BPS * PRICE_SCALE, supplyCoin * price;
      forall bps: u64 ensures bps <= ReserveRatioBps(reserveUsdc, supplyCoin, price) <==> d * bps <= n {
        FloorIff(n, d, bps);
      }
    }
  }

  lemma BackedIff(reserveUsdc: u64, supplyCoin: u64, price: u64)
    requires supplyCoin > 0 && price > 0
    ensures ReserveRatioBps(reserveUsdc, supplyCoin, price) >= 10_000 <==> supplyCoin * price <= reserveUsdc * PRICE_SCALE
  {
    ReserveRatioExact(reserveUsdc, supplyCoin, price);
    var bps: u64 := 10_000;
    assert bps <= ReserveRatioBps(reserveUsdc, supplyCoin, price) <==> supplyCoin * price * bps <= reserveUsdc * BPS * PRICE_SCALE;
  }

  function ConfBps(conf: u64, price: u64): Option<u64> {
    var n :- CheckedMul(conf, BPS);
    var c :- CeilDivChecked(n, price);
    ToU64(c)
  }

  lemma ConfExact(conf: u64, price: u64)
    ensures price == 0 ==> ConfBps(conf, price) == None
    ensures price > 0 ==> Ceils(ConfBps(conf, price), conf * BPS, price)
  {
    ProductFits(conf, BPS, U64_MAX, 10_000);
    if price > 0 {
      CeilRounds(conf * BPS, price);
    }
  }
}
