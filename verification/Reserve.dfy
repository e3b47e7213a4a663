/**
 The Peg Desk reserve over whole runs of trades at one oracle price (programs/peg_desk/src/lib.rs):
 buys pay USDC in and mint coin at the ask, sells burn coin and take USDC out at the bid.
 Spreads may be different, and anything at all, in every trade.
 */
module Reserve {
  import opened Arith
  import opened Prelude
  import opened Pricing

  datatype Desk = Desk(reserve: nat, supply: nat)

  datatype Trade =
    | Buy(usdcIn: u64, spreadBps: u16)
    | BuyExactOut(coinOut: u64, spreadBps: u16)
    | Sell(coinIn: u64, spreadBps: u16)
    | Deposit(amount: u64)

  /** `None` when the trade is refused: arithmetic, not enough coin outstanding, or not enough USDC. */
  function Execute(d: Desk, price: u64, t: Trade): Option<Desk> {
    match t
    case Buy(usdcIn, spread) =>
      var ask :- Ask(price, spread);
      var coin :- CoinOutForUsdc(usdcIn, ask);
      Some(Desk(d.reserve + usdcIn, d.supply + coin))
    case BuyExactOut(coinOut, spread) =>
      var ask :- Ask(price, spread);
      var usdc :- UsdcInForCoin(coinOut, ask);
      Some(Desk(d.reserve + usdc, d.supply + coinOut))
    case Sell(coinIn, spread) =>
      var bid :- Bid(price, spread);
      var usdc :- UsdcOutForCoin(coinIn, bid);
      if coinIn <= d.supply && usdc <= d.reserve then Some(Desk(d.reserve - usdc, d.supply - coinIn)) else None
    case Deposit(amount) => Some(d.(reserve := d.reserve + amount))
  }

  // ----- what a trade moves -----

  /**
   A sale burns exactly the coin and pays out its value at the bid, which is the price less the spread, both
   rounded down. It is refused only for want of coin or of USDC.
   */
  lemma SaleExact(d: Desk, price: u64, coinIn: u64, spread: u16, bid: u64, usdc: Option<u64>)
    requires Floors(Some(bid), price * (if spread <= 10_000 then 10_000 - spread else 0), 10_000)
    requires Floors(usdc, coinIn * bid, 100_000_000)
    ensures Execute(d, price, Sell(coinIn, spread)) ==
      if usdc.Some? && coinIn <= d.supply && usdc.value <= d.reserve then Some(Desk(d.reserve - usdc.value, d.supply - coinIn)) else None
  {
    BidExact(price, spread);
    FloorsUnique(Bid(price, spread), Some(bid), price * (if spread <= 10_000 then 10_000 - spread else 0), 10_000);
    UsdcOutExact(coinIn, bid);
    FloorsUnique(UsdcOutForCoin(coinIn, bid), usdc, coinIn * bid, 100_000_000);
  }

  /**
   A purchase takes exactly the USDC and mints what it buys, rounded down, at the ask, which is the price plus the
   spread, rounded up. It is refused only for an ask of 0 or an amount that does not fit.
   */
  lemma PurchaseExact(d: Desk, price: u64, usdcIn: u64, spread: u16, ask: Option<u64>, coin: Option<u64>)
    requires Ceils(ask, price * (10_000 + spread), 10_000)
    requires ask.Some? && ask.value > 0 ==> Floors(coin, usdcIn * 100_000_000, ask.value)
    ensures Execute(d, price, Buy(usdcIn, spread)) ==
      if ask.Some? && ask.value > 0 && coin.Some? then Some(Desk(d.reserve + usdcIn, d.supply + coin.value)) else None
  {
    AskExact(price, spread);
    CeilsUnique(Ask(price, spread), ask, price * (10_000 + spread), 10_000);
    if ask.Some? {
      CoinOutExact(usdcIn, ask.value);
      if ask.value > 0 {
        FloorsUnique(CoinOutForUsdc(usdcIn, ask.value), coin, usdcIn * 100_000_000, ask.value);
      }
    }
  }

  /** A purchase of an exact amount mints just that and takes its value at the ask, rounded up. */
  lemma ExactPurchaseExact(d: Desk, price: u64, coinOut: u64, spread: u16, ask: Option<u64>, usdc: Option<u64>)
    requires Ceils(ask, price * (10_000 + spread), 10_000)
    requires ask.Some? ==> Ceils(usdc, coinOut * ask.value, 100_000_000)
    ensures Execute(d, price, BuyExactOut(coinOut, spread)) ==
      if ask.Some? && usdc.Some? then Some(Desk(d.reserve + usdc.value, d.supply + coinOut)) else None
  {
    AskExact(price, spread);
    CeilsUnique(Ask(price, spread), ask, price * (10_000 + spread), 10_000);
    if ask.Some? {
      UsdcInExact(coinOut, ask.value);
      CeilsUnique(UsdcInForCoin(coinOut, ask.value), usdc, coinOut * ask.value, 100_000_000);
    }
  }

  /** What the reserve holds beyond its liability, in units of 1e-8 USDC base units. */
  function Surplus(d: Desk, price: u64): int {
    d.reserve * PRICE_SCALE - d.supply * price
  }

  /** No trade takes value out of the reserve: every rounding and every spread is in its favour. */
  lemma TradeKeepsSurplus(d: Desk, price: u64, t: Trade)
    requires Execute(d, price, t).Some?
    ensures Surplus(Execute(d, price, t).value, price) >= Surplus(d, price)
  {
    var e := Execute(d, price, t).value;
    match t
    case Buy(usdcIn, spread) =>
      var ask := Ask(price, spread).value;
      var coin := CoinOutForUsdc(usdcIn, ask).value;
      AskExact(price, spread);
      CoinOutExact(usdcIn, ask);
      MulLe(coin, price, ask);
      Moves(d, e, price, usdcIn, coin);
    case BuyExactOut(coinOut, spread) =>
      var ask := Ask(price, spread).value;
      var usdc := UsdcInForCoin(coinOut, ask).value;
      AskExact(price, spread);
      UsdcInExact(coinOut, ask);
      MulLe(coinOut, price, ask);
      Moves(d, e, price, usdc, coinOut);
    case Sell(coinIn, spread) =>
      var bid := Bid(price, spread).value;
      var usdc: int, coin: int := UsdcOutForCoin(coinIn, bid).value, coinIn;
      BidExact(price, spread);
      UsdcOutExact(coinIn, bid);
      MulLe(coinIn, bid, price);
      Moves(d, e, price, -usdc, -coin);
    case Deposit(amount) =>
      Moves(d, e, price, amount, 0);
  }

  lemma Moves(d: Desk, e: Desk, price: u64, usdc: int, coin: int)
    requires e.reserve == d.reserve + usdc && e.supply == d.supply + coin
    ensures Surplus(e, price) == Surplus(d, price) + usdc * PRICE_SCALE - coin * price
  {
    MulAdd(d.supply, coin, price);
  }

  /** Trades one after another; a refused trade changes nothing. */
  function ExecuteAll(d: Desk, price: u64, trades: seq<Trade>): Desk
    decreases |trades|
  {
    if trades == [] then d else
    var next := Execute(d, price, trades[0]);
    ExecuteAll(if next.Some? then next.value else d, price, trades[1..])
  }

  /** A run is its trades one after another: nothing is skipped or repeated. */
  lemma {:induction false} RunInParts(d: Desk, price: u64, before: seq<Trade>, t: Trade)
    ensures var e := ExecuteAll(d, price, before);
      ExecuteAll(d, price, before + [t]) == if Execute(e, price, t).Some? then Execute(e, price, t).value else e
    decreases |before|
  {
    if before == [] {
      assert before + [t] == [t] && [t][1..] == [];
    } else {
      var next := Execute(d, price, before[0]);
      RunInParts(if next.Some? then next.value else d, price, before[1..], t);
      assert (before + [t])[1..] == before[1..] + [t];
    }
  }

  /** Over any run of trades at a price the surplus never falls, so a reserve that covers its liability goes on covering it. */
  lemma {:induction false} RunKeepsSurplus(d: Desk, price: u64, trades: seq<Trade>)
    ensures Surplus(ExecuteAll(d, price, trades), price) >= Surplus(d, price)
    decreases |trades|
  {
    if trades != [] {
      var next := Execute(d, price, trades[0]);
      if next.Some? {
        TradeKeepsSurplus(d, price, trades[0]);
      }
      RunKeepsSurplus(if next.Some? then next.value else d, price, trades[1..]);
    }
  }

  /** Full backing, as the program's own ratio reads it, survives every run (while the amounts fit in 64 bits). */
  lemma RunKeepsBacking(d: Desk, price: u64, trades: seq<Trade>)
    requires d.reserve <= U64_MAX && d.supply <= U64_MAX
    requires ReserveRatioBps(d.reserve, d.supply, price) >= 10_000
    requires ExecuteAll(d, price, trades).reserve <= U64_MAX && ExecuteAll(d, price, trades).supply <= U64_MAX
    ensures ReserveRatioBps(ExecuteAll(d, price, trades).reserve, ExecuteAll(d, price, trades).supply, price) >= 10_000
  {
    RunKeepsSurplus(d, price, trades);
    var e := ExecuteAll(d, price, trades);
    if e.supply > 0 && price > 0 {
      BackedIff(e.reserve, e.supply, price);
      if d.supply > 0 {
        BackedIff(d.reserve, d.supply, price);
      }
    } else {
      ReserveRatioExact(e.reserve, e.supply, price);
    }
  }

  /** No round trip profits: any run that ends with the supply it started with leaves at least as much USDC behind. */
  lemma RoundTripNeverProfits(d: Desk, price: u64, trades: seq<Trade>)
    requires ExecuteAll(d, price, trades).supply == d.supply
    ensures ExecuteAll(d, price, trades).reserve >= d.reserve
  {
    RunKeepsSurplus(d, price, trades);
  }

  /**
   Whoever holds coin can always sell it: after any run from a covered reserve, every sale of outstanding coin
   is carried out, at any spread, and pays its value at the bid. (The reserve is a token account, so its balance
   is a u64.)
   */
  lemma EverySaleIsPaid(d: Desk, price: u64, trades: seq<Trade>, coinIn: u64, spread: u16) returns (bid: u64, usdc: u64)
    requires Surplus(d, price) >= 0 && ExecuteAll(d, price, trades).reserve <= U64_MAX
    requires coinIn <= ExecuteAll(d, price, trades).supply
    ensures Floors(Some(bid), price * (if spread <= 10_000 then 10_000 - spread else 0), 10_000)
    ensures Floors(Some(usdc), coinIn * bid, 100_000_000)
    ensures var e := ExecuteAll(d, price, trades);
      usdc <= e.reserve && Execute(e, price, Sell(coinIn, spread)) == Some(Desk(e.reserve - usdc, e.supply - coinIn))
  {
    RunKeepsSurplus(d, price, trades);
    BidExact(price, spread);
    bid := Bid(price, spread).value;
    SaleFits(ExecuteAll(d, price, trades), price, coinIn, bid);
    UsdcOutExact(coinIn, bid);
    usdc := UsdcOutForCoin(coinIn, bid).value;
    SaleExact(ExecuteAll(d, price, trades), price, coinIn, spread, bid, Some(usdc));
  }

  /** A covered reserve holds what any outstanding coin sells for, so the amount fits. */
  lemma SaleFits(e: Desk, price: u64, coinIn: u64, bid: u64)
    requires Surplus(e, price) >= 0 && coinIn <= e.supply && bid <= price && e.reserve <= U64_MAX
    ensures UsdcOutForCoin(coinIn, bid).Some? && UsdcOutForCoin(coinIn, bid).value <= e.reserve
  {
    UsdcOutExact(coinIn, bid);
    ProductFits(coinIn, bid, e.supply, price);
    if UsdcOutForCoin(coinIn, bid).Some? {
      MulCancel(PRICE_SCALE, UsdcOutForCoin(coinIn, bid).value, e.reserve);
    }
  }
}
