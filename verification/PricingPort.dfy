/**
 The client's port of the pricing rules (packages/sdk/src/pricing.ts): unbounded integers, exceptions
 where the program returns `None`, and `null` where it returns the no-liability sentinel. At 6/6 decimals.

 On every input the program accepts, the port gives the same answer.
 */
module PricingPort {
  import opened Arith
  import opened Prelude
  import opened Pricing
  import opened Quotes

  datatype PricingError = PricingError(what: string)

  type Priced = Result<int, PricingError>

  function ToU64OrThrow(v: int, what: string): Priced {
    if v < 0 || v > U64_MAX then Err(PricingError(what)) else Ok(v)
  }

  function AskPrice(price: nat, spread: nat): Priced {
    ToU64OrThrow(CeilDiv(price * (10_000 + spread), 10_000), "askPrice")
  }

  function BidPrice(price: nat, spread: nat): Priced {
    var keep := if 10_000 > spread then 10_000 - spread else 0;
    ToU64OrThrow(FloorDiv(price * keep, 10_000), "bidPrice")
  }

  function CoinOutForUsdcIn(usdcIn: int, ask: int): Priced {
    if ask <= 0 then Err(PricingError("ask must be > 0"))
    else if usdcIn < 0 then Err(PricingError("usdcIn must be >= 0"))
    else ToU64OrThrow(FloorDiv(usdcIn * 100_000_000, ask), "coinOutForUsdcIn")
  }

  function UsdcOutForCoinIn(coinIn: int, bid: int): Priced {
    if coinIn < 0 then Err(PricingError("coinIn must be >= 0"))
    else if bid < 0 then Err(PricingError("bid must be >= 0"))
    else
      ProductFits(0, 0, coinIn, bid);
      ToU64OrThrow(FloorDiv(coinIn * bid, 100_000_000), "usdcOutForCoinIn")
  }

  function MaxUsdcInForCoinOut(coinOut: int, ask: int): Priced {
    if ask < 0 then Err(PricingError("ask must be >= 0"))
    else if coinOut < 0 then Err(PricingError("coinOut must be >= 0"))
    else
      ProductFits(0, 0, coinOut, ask);
      ToU64OrThrow(CeilDiv(coinOut * ask, 100_000_000), "maxUsdcInForCoinOut")
  }

  /** `None` stands for `null`. */
  function ReserveRatio(reserve: nat, supply: nat, price: nat): Option<nat> {
    if supply == 0 || price == 0 then None else
    ProductFits(1, 1, supply, price);
    var r := FloorDiv(reserve * 10_000 * 100_000_000, supply * price);
    Some(if r > U64_MAX then U64_MAX else r)
  }

  function ConfBpsPort(conf: nat, price: int): Priced {
    if price <= 0 then Err(PricingError("price must be > 0"))
    else ToU64OrThrow(CeilDiv(conf * 10_000, price), "confBps")
  }

  function Normalize(value: nat, expo: int): Priced {
    var shift := expo + 8;
    if shift < -30 || shift > 30 then Err(PricingError("bad expo"))
    else if shift >= 0 then ToU64OrThrow(value * Pow10(shift), "normalizeTo1e8")
    else Ok(value / Pow10(-shift))
  }

  function Scale(rawPrice: nat, rawExpo: int, quoteScale: int, fxPrice: nat, fxExpo: int): Priced {
    var p := Normalize(rawPrice, rawExpo);
    if p.Err? then p
    else if quoteScale == 0 then p
    else if quoteScale == 1 then Ok(p.value / 100)
    else if quoteScale == 2 then
      var fx := Normalize(fxPrice, fxExpo);
      if fx.Err? then fx
      else if fx.value == 0 then Err(PricingError("fx price is zero"))
      else InDollarsPort(p.value, fx.value)
    else Err(PricingError("unknown quote_scale"))
  }

  function InDollarsPort(p: int, fx: int): Priced {
    ToU64OrThrow(p * fx / 100_000_000, "scaleQuote")
  }

  function PortSpread(spread: nat, closed: nat, confMult: nat, conf: nat, price: nat, age: nat, maxAge: nat,
                      status: int, reserveRatioBps: Option<nat>, warnBps: nat): int {
    if price == 0 then 5_000 else
    var half := maxAge / 2;
    var penalty := if age > half && maxAge > half then CeilDiv(spread * (Min(age, maxAge) - half), maxAge - half) else 0;
    var s := (if status == 1 then closed else spread) + CeilDiv(confMult * conf * 100, price) + penalty;
    var widened := if reserveRatioBps.Some? && reserveRatioBps.value < warnBps then 2 * s else s;
    Min(widened, 5_000)
  }

  // ----- agreement -----

  /** Same value, or an exception exactly where the program returns `None`. */
  ghost predicate Agrees(program: Option<u64>, port: Priced) {
    match program
    case Some(v) => port == Ok(v)
    case None => port.Err?
  }

  lemma QuotesAgree(price: u64, spread: u16, amount: u64, quote: u64)
    ensures Agrees(Ask(price, spread), AskPrice(price, spread))
    ensures Agrees(Bid(price, spread), BidPrice(price, spread))
    ensures Agrees(CoinOutForUsdc(amount, quote), CoinOutForUsdcIn(amount, quote))
    ensures Agrees(UsdcOutForCoin(amount, quote), UsdcOutForCoinIn(amount, quote))
    ensures Agrees(UsdcInForCoin(amount, quote), MaxUsdcInForCoinOut(amount, quote))
    ensures Agrees(ConfBps(amount, quote), ConfBpsPort(amount, quote))
  {
    ProductFits(price, BPS + spread, U64_MAX, 0x1_ffff);
    ProductFits(price, if spread <= BPS then BPS - spread else 0, U64_MAX, 10_000);
    ProductFits(amount, PRICE_SCALE, U64_MAX, 100_000_000);
    ProductFits(amount, quote, U64_MAX, U64_MAX);
    ProductFits(amount, BPS, U64_MAX, 10_000);
  }

  /** `null` exactly when nothing is owed, where the program says u64::MAX; otherwise the same number. */
  lemma RatioAgrees(reserve: u64, supply: u64, price: u64)
    ensures ReserveRatio(reserve, supply, price).None? <==> supply == 0 || price == 0
    ensures ReserveRatioBps(reserve, supply, price)
         == if ReserveRatio(reserve, supply, price).Some? then ReserveRatio(reserve, supply, price).value else U64_MAX
  {
    if supply > 0 && price > 0 {
      ProductFits(reserve, BPS, U64_MAX, 10_000);
      ProductFits(reserve * BPS, PRICE_SCALE, U64_MAX * 10_000, 100_000_000);
      ProductFits(supply, price, U64_MAX, U64_MAX);
      ProductFits(1, 1, supply, price);
    }
  }

  lemma NormalizeAgrees(value: u64, expo: i32)
    ensures Agrees(NormalizeTo1e8(value, expo), Normalize(value, expo))
  {
    var shift := expo + 8;
    if -30 <= shift < 0 {
      Pow10Fits(-shift);
      QuotientFits(value, Pow10(-shift));
    }
  }

  lemma ScaleAgrees(rawPrice: u64, rawExpo: i32, quoteScale: u8, fxPrice: u64, fxExpo: i32)
    ensures Agrees(ScaleQuote(rawPrice, rawExpo, quoteScale, fxPrice, fxExpo), Scale(rawPrice, rawExpo, quoteScale, fxPrice, fxExpo))
  {
    NormalizeAgrees(rawPrice, rawExpo);
    NormalizeAgrees(fxPrice, fxExpo);
    var p, fx := NormalizeTo1e8(rawPrice, rawExpo), NormalizeTo1e8(fxPrice, fxExpo);
    if p.Some? && fx.Some? {
      InDollarsAgrees(p.value, fx.value);
    }
  }

  lemma InDollarsAgrees(p: u64, fx: u64)
    ensures Agrees(InDollars(p, fx), InDollarsPort(p, fx))
  {
    ProductFits(p, fx, U64_MAX, U64_MAX);
    QuotientFits(p * fx, 100_000_000);
  }

  /** Rounding pins the result down, so two computations of the same quotient agree. */
  lemma FloorsUnique(a: Option<u64>, b: Option<u64>, n: nat, d: nat)
    requires d > 0 && Floors(a, n, d) && Floors(b, n, d)
    ensures a == b
  {
    var x, y := if a.Some? then a.value else U64_MAX + 1, if b.Some? then b.value else U64_MAX + 1;
    FloorIff(n, d, x);
    FloorIff(n, d, y);
    FloorIff(n, d, x + 1);
    FloorIff(n, d, y + 1);
  }

  /** weightedSum: no overflow checks along the way, one range check at the end; the program's answer all the same. */
  method WeightedSumPort(legs: seq<Leg>) returns (port: Priced, program: Option<u64>)
    ensures if Weights(legs) == 10_000 then Floors(program, Dot(legs), BPS) else port.Err?
    ensures Agrees(program, port)
  {
    program := WeightedSum(legs);
    var wsum, acc := 0, 0;
    for i := 0 to |legs|
      invariant wsum == Weights(legs[..i]) && acc == Dot(legs[..i])
    {
      assert legs[..i + 1][..i] == legs[..i];
      wsum := wsum + legs[i].weightBps;
      acc := acc + legs[i].value * legs[i].weightBps;
    }
    assert legs[..|legs|] == legs;
    if wsum != 10_000 {
      return Err(PricingError("weights must sum to 10_000")), program;
    }
    port := ToU64OrThrow(FloorDiv(acc, 10_000), "weightedSum");
    FloorRounds(acc, BPS);
    FloorsUnique(program, ToU64(Quotient(acc, BPS)), acc, BPS);
  }

  /**
   The spread the client shows is the one the program charges, when each reads the reserve ratio from its
   own `reserve_ratio_bps`: `null` never widens, and neither does the sentinel.
   */
  method SpreadAgrees(spread: u16, closed: u16, confMult: u16, conf: u64, price: u64, age: u64, maxAge: u32,
                      status: u8, reserve: u64, supply: u64, ratioPrice: u64, warnBps: u16) returns (program: u16)
    ensures program == PortSpread(spread, closed, confMult, conf, price, age, maxAge, status, ReserveRatio(reserve, supply, ratioPrice), warnBps)
  {
    RatioAgrees(reserve, supply, ratioPrice);
    program := EffectiveSpreadBps(spread, closed, confMult, conf, price, age, maxAge, status,
                                  ReserveRatioBps(reserve, supply, ratioPrice), warnBps);
  }
}
