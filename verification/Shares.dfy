/**
 From balance events to a share plan: per-wallet averages, pro-rata shares, and the sorted plan that
 is stored before an epoch is opened (packages/sdk/src/twab.ts, payouts.ts computePlan).
 */
module Shares {
  import opened Arith
  import opened Items
  import opened Merkle
  import opened Prelude
  import opened Sequences
  import opened Twab

  // ----- averages per wallet -----

  function OfWallet(events: seq<Event>, w: Key): seq<Event> {
    if events == [] then []
    else if events[0].wallet == w then [events[0]] + OfWallet(events[1..], w)
    else OfWallet(events[1..], w)
  }

  /** The events of one wallet are all of its events and nobody else's. */
  lemma {:induction false} OfWalletIs(events: seq<Event>, w: Key, e: Event)
    ensures multiset(OfWallet(events, w))[e] == if e.wallet == w then multiset(events)[e] else 0
  {
    if events != [] {
      OfWalletIs(events[1..], w, e);
      assert events == [events[0]] + events[1..];
    }
  }

  /** Wallets in the order in which they first appear, without the excluded ones. */
  function FirstSeen(events: seq<Event>, exclude: set<Key>): seq<Key> {
    if events == [] then [] else
    var before := FirstSeen(events[..|events| - 1], exclude);
    var w := events[|events| - 1].wallet;
    if w in exclude || w in before then before else before + [w]
  }

  function Averages(order: seq<Key>, events: seq<Event>, start: int, end: int): seq<Item>
    requires start < end
  {
    if order == [] then [] else
    var weight := Integral(OfWallet(events, order[0]), start, end);
    var rest := Averages(order[1..], events, start, end);
    if weight > 0 then [Item(order[0], FloorDiv(weight, end - start))] + rest else rest
  }

  lemma {:induction false} OneAverage(order: seq<Key>, events: seq<Event>, start: int, end: int)
    requires start < end && order != []
    ensures Averages(order, events, start, end) == Averages([order[0]], events, start, end) + Averages(order[1..], events, start, end)
  {
    assert [order[0]][1..] == [];
  }

  lemma {:induction false} AveragesConcat(a: seq<Key>, b: seq<Key>, events: seq<Event>, start: int, end: int)
    requires start < end
    ensures Averages(a + b, events, start, end) == Averages(a, events, start, end) + Averages(b, events, start, end)
  {
    if a == [] {
      assert a + b == b;
    } else {
      AveragesConcat(a[1..], b, events, start, end);
      assert (a + b)[1..] == a[1..] + b && (a + b)[0] == a[0];
      var front, back := Averages(a[1..], events, start, end), Averages(b, events, start, end);
      var own := Averages([a[0]], events, start, end);
      OneAverage(a, events, start, end);
      OneAverage(a + b, events, start, end);
      assert own + (front + back) == own + front + back;
    }
  }

  lemma AveragesOneMore(order: seq<Key>, i: nat, events: seq<Event>, start: int, end: int)
    requires start < end && i < |order|
    ensures var weight := Integral(OfWallet(events, order[i]), start, end); var before := Averages(order[..i], events, start, end);
      Averages(order[..i + 1], events, start, end) ==
      if weight > 0 then before + [Item(order[i], FloorDiv(weight, end - start))] else before
  {
    AveragesConcat(order[..i], [order[i]], events, start, end);
    assert order[..i + 1] == order[..i] + [order[i]];
    assert [order[i]][1..] == [];
  }

  ghost predicate NoRepeats(order: seq<Key>) {
    forall i, j :: 0 <= i < j < |order| ==> order[i] != order[j]
  }

  lemma {:induction false} FirstSeenFacts(events: seq<Event>, exclude: set<Key>)
    ensures NoRepeats(FirstSeen(events, exclude))
    ensures forall w :: w in FirstSeen(events, exclude) <==> w !in exclude && exists i :: 0 <= i < |events| && events[i].wallet == w
  {
    if events != [] {
      var n := |events| - 1;
      var front, last := events[..n], events[n].wallet;
      FirstSeenFacts(front, exclude);
      forall w ensures w in FirstSeen(events, exclude) <==> w !in exclude && exists i :: 0 <= i < |events| && events[i].wallet == w {
        if i :| 0 <= i < |events| && events[i].wallet == w {
          assert i < n ==> front[i].wallet == w;
        }
      }
    }
  }

  /** Event `n` is by wallet `w`, and up to it there is none by `v`. */
  predicate SeenBefore(events: seq<Event>, n: int, w: Key, v: Key) {
    0 <= n < |events| && events[n].wallet == w && forall m :: 0 <= m <= n ==> events[m].wallet != v
  }

  /** A wallet is listed before those that first appear later. */
  lemma {:induction false} FirstSeenInOrder(events: seq<Event>, exclude: set<Key>, i: nat, j: nat)
    requires i < j < |FirstSeen(events, exclude)|
    ensures exists n :: SeenBefore(events, n, FirstSeen(events, exclude)[i], FirstSeen(events, exclude)[j])
  {
    var front, order := events[..|events| - 1], FirstSeen(events, exclude);
    var before := FirstSeen(front, exclude);
    FirstSeenFacts(front, exclude);
    if j < |before| {
      FirstSeenInOrder(front, exclude, i, j);
      var n :| SeenBefore(front, n, before[i], before[j]);
      assert SeenBefore(events, n, order[i], order[j]);
    } else {
      assert before[i] in before;
      var n :| 0 <= n < |front| && front[n].wallet == before[i];
      assert forall m :: 0 <= m <= n ==> events[m] == front[m];
      assert SeenBefore(events, n, order[i], order[j]);
    }
  }

  /** `it` is the average of its wallet, which weighs something. */
  predicate IsAverage(it: Item, events: seq<Event>, start: int, end: int)
    requires start < end
  {
    var weight := Integral(OfWallet(events, it.wallet), start, end);
    weight > 0 && it.amount == FloorDiv(weight, end - start)
  }

  /** A wallet's average, rounded down: the largest amount that times the duration stays within its weight. */
  lemma AverageIs(it: Item, events: seq<Event>, start: int, end: int)
    requires start < end
    ensures var weight := Integral(OfWallet(events, it.wallet), start, end);
      IsAverage(it, events, start, end) <==>
        weight > 0 && (end - start) * it.amount <= weight < (end - start) * (it.amount + 1)
  {
    var weight := Integral(OfWallet(events, it.wallet), start, end);
    if weight > 0 {
      FloorIff(weight, end - start, it.amount);
      FloorIff(weight, end - start, it.amount + 1);
    }
  }

  /** Who weighs something has an event. */
  lemma WeightNeedsEvents(events: seq<Event>, w: Key, start: int, end: int)
    requires start < end && Integral(OfWallet(events, w), start, end) != 0
    ensures exists i :: 0 <= i < |events| && events[i].wallet == w
  {
    var own := OfWallet(events, w);
    IntegralIsContributions(own, start, end);
    assert own != [];
    OfWalletIs(events, w, own[0]);
    assert own[0] in multiset(own);
    assert own[0] in events;
  }

  lemma {:induction false} AveragesMembers(order: seq<Key>, events: seq<Event>, start: int, end: int)
    requires start < end
    ensures forall it :: it in Averages(order, events, start, end) <==> it.wallet in order && IsAverage(it, events, start, end)
  {
    if order != [] {
      AveragesMembers(order[1..], events, start, end);
      assert forall w :: w in order <==> w == order[0] || w in order[1..];
    }
  }

  lemma {:induction false} AveragesDistinct(order: seq<Key>, events: seq<Event>, start: int, end: int)
    requires start < end && NoRepeats(order)
    ensures Distinct(Averages(order, events, start, end))
  {
    if order != [] {
      AveragesDistinct(order[1..], events, start, end);
      AveragesMembers(order[1..], events, start, end);
      var rest := Averages(order[1..], events, start, end);
      forall i | 0 <= i < |rest| ensures rest[i].wallet != order[0] {
        assert rest[i] in rest;
      }
    }
  }

  lemma AveragesFacts(order: seq<Key>, events: seq<Event>, start: int, end: int)
    requires start < end && NoRepeats(order)
    ensures Distinct(Averages(order, events, start, end))
    ensures forall it :: it in Averages(order, events, start, end) <==> it.wallet in order && IsAverage(it, events, start, end)
  {
    AveragesDistinct(order, events, start, end);
    AveragesMembers(order, events, start, end);
  }

  method ComputeTwab(events: seq<Event>, start: int, end: int, exclude: set<Key>) returns (r: Option<seq<Item>>)
    ensures r.None? <==> end <= start
    ensures r.Some? ==> r.value == Averages(FirstSeen(events, exclude), events, start, end) && Distinct(r.value)
  {
    if end <= start {
      return None;
    }
    var order: seq<Key> := [];
    var byWallet: map<Key, seq<Event>> := map[];
    for i := 0 to |events|
      invariant order == FirstSeen(events[..i], exclude)
      invariant byWallet.Keys == set w | w in order
      invariant forall w :: w in order ==> w !in exclude
      invariant forall w :: w in order ==> byWallet[w] == OfWallet(events[..i], w)
      invariant forall w :: w !in order && w !in exclude ==> OfWallet(events[..i], w) == []
    {
      var ev := events[i];
      assert events[..i + 1][..i] == events[..i];
      OfWalletLast(events, i);
      if ev.wallet !in exclude {
        if ev.wallet !in byWallet {
          order := order + [ev.wallet];
          byWallet := byWallet[ev.wallet := []];
        }
        assert byWallet[ev.wallet] == OfWallet(events[..i], ev.wallet);
        byWallet := byWallet[ev.wallet := byWallet[ev.wallet] + [ev]];
      }
    }
    assert events[..|events|] == events;
    var duration := end - start;
    var result: seq<Item> := [];
    for i := 0 to |order|
      invariant result == Averages(order[..i], events, start, end)
    {
      var weightedSum := WalletWeight(byWallet[order[i]], start, end);
      AveragesOneMore(order, i, events, start, end);
      if weightedSum > 0 {
        result := result + [Item(order[i], FloorDiv(weightedSum, duration))];
      }
    }
    assert order[..|order|] == order;
    FirstSeenFacts(events, exclude);
    AveragesFacts(order, events, start, end);
    return Some(result);
  }

  lemma OfWalletLast(events: seq<Event>, i: nat)
    requires i < |events|
    ensures OfWallet(events[..i + 1], events[i].wallet) == OfWallet(events[..i], events[i].wallet) + [events[i]]
    ensures forall w :: w != events[i].wallet ==> OfWallet(events[..i + 1], w) == OfWallet(events[..i], w)
  {
    assert events[..i + 1] == events[..i] + [events[i]];
    OfWalletConcat(events[..i], [events[i]], events[i].wallet);
    forall w | w != events[i].wallet ensures OfWallet(events[..i + 1], w) == OfWallet(events[..i], w) {
      OfWalletConcat(events[..i], [events[i]], w);
      assert OfWallet(events[..i], w) + [] == OfWallet(events[..i], w);
    }
  }

  lemma {:induction false} OfWalletConcat(a: seq<Event>, b: seq<Event>, w: Key)
    ensures OfWallet(a + b, w) == OfWallet(a, w) + OfWallet(b, w)
  {
    if a == [] {
      assert a + b == b;
    } else {
      OfWalletConcat(a[1..], b, w);
      assert (a + b)[1..] == a[1..] + b;
    }
  }

  // ----- order independence and the bound on the total -----

  lemma {:induction false} OfWalletOrder(a: seq<Event>, b: seq<Event>, w: Key)
    requires multiset(a) == multiset(b)
    ensures multiset(OfWallet(a, w)) == multiset(OfWallet(b, w))
  {
    if a == [] {
      SameElements(a, b);
    } else {
      var i := DropFirst(a, b);
      var p, q := OfWallet(b[..i], w), OfWallet(b[i + 1..], w);
      OfWalletOrder(a[1..], b[..i] + b[i + 1..], w);
      OfWalletConcat(b[..i], b[i + 1..], w);
      OfWalletAt(b, i, w);
      if a[0].wallet == w {
        assert multiset(p + ([a[0]] + q)) == multiset{a[0]} + multiset(p + q);
      }
    }
  }

  lemma OfWalletAt(b: seq<Event>, i: nat, w: Key)
    requires i < |b|
    ensures OfWallet(b, w) == OfWallet(b[..i], w) + if b[i].wallet == w then [b[i]] + OfWallet(b[i + 1..], w) else OfWallet(b[i + 1..], w)
  {
    OfWalletConcat(b[..i], b[i..], w);
    assert b == b[..i] + b[i..] && b[i..][1..] == b[i + 1..];
  }

  /** The averages are a function of the set of events alone: input order and timestamp ties do not matter. */
  lemma AveragesIgnoreOrder(a: seq<Event>, b: seq<Event>, start: int, end: int, exclude: set<Key>, it: Item)
    requires start < end && multiset(a) == multiset(b)
    ensures it in Averages(FirstSeen(a, exclude), a, start, end) <==> it in Averages(FirstSeen(b, exclude), b, start, end)
  {
    var w := it.wallet;
    OfWalletOrder(a, b, w);
    OrderDoesNotMatter(OfWallet(a, w), OfWallet(b, w), start, end);
    IntegralIsContributions(OfWallet(a, w), start, end);
    IntegralIsContributions(OfWallet(b, w), start, end);
    FirstSeenFacts(a, exclude);
    FirstSeenFacts(b, exclude);
    AveragesFacts(FirstSeen(a, exclude), a, start, end);
    AveragesFacts(FirstSeen(b, exclude), b, start, end);
    SameElements(a, b);
    SeenInBoth(a, b, w);
    SeenInBoth(b, a, w);
  }

  lemma SeenInBoth(a: seq<Event>, b: seq<Event>, w: Key)
    requires forall x :: x in a <==> x in b
    ensures (exists i :: 0 <= i < |a| && a[i].wallet == w) ==> exists i :: 0 <= i < |b| && b[i].wallet == w
  {
    if i :| 0 <= i < |a| && a[i].wallet == w {
      assert a[i] in b;
    }
  }

  function Among(events: seq<Event>, order: seq<Key>): seq<Event> {
    if events == [] then []
    else if events[0].wallet in order then [events[0]] + Among(events[1..], order)
    else Among(events[1..], order)
  }

  lemma {:induction false} AmongOneMore(events: seq<Event>, w: Key, order: seq<Key>, start: int, end: int)
    requires w !in order
    ensures Contributions(Among(events, [w] + order), start, end)
         == Contributions(OfWallet(events, w), start, end) + Contributions(Among(events, order), start, end)
  {
    if events != [] {
      AmongOneMore(events[1..], w, order, start, end);
      var e := events[0];
      ContributionsConcat([e], Among(events[1..], [w] + order), start, end);
      ContributionsConcat([e], OfWallet(events[1..], w), start, end);
      ContributionsConcat([e], Among(events[1..], order), start, end);
      assert e.wallet in [w] + order <==> e.wallet == w || e.wallet in order;
    }
  }

  /**
   When no wallet's weight is negative, the averages together are at most the time-averaged balance of
   everybody counted: rounding down never creates balance.
   */
  lemma {:induction false} AveragesBounded(order: seq<Key>, events: seq<Event>, start: int, end: int)
    requires start < end && NoRepeats(order)
    requires forall w :: w in order ==> Integral(OfWallet(events, w), start, end) >= 0
    ensures Sum(Averages(order, events, start, end)) * (end - start) <= Integral(Among(events, order), start, end)
  {
    IntegralIsContributions(Among(events, order), start, end);
    if order == [] {
      AmongNobody(events);
    } else {
      var w, rest := order[0], order[1..];
      assert order == [w] + rest;
      AveragesBounded(rest, events, start, end);
      AmongOneMore(events, w, rest, start, end);
      IntegralIsContributions(OfWallet(events, w), start, end);
      IntegralIsContributions(Among(events, rest), start, end);
      var weight, d := Integral(OfWallet(events, w), start, end), end - start;
      var tail := Averages(rest, events, start, end);
      if weight > 0 {
          AddAverage(weight, d, Sum(tail), Integral(Among(events, rest), start, end));
      }
    }
  }

  lemma AddAverage(weight: nat, d: nat, tail: nat, bound: int)
    requires d > 0 && tail * d <= bound
    ensures (FloorDiv(weight, d) + tail) * d <= weight + bound
  {
    assert weight == weight / d * d + weight % d;
    assert (weight / d + tail) * d == weight / d * d + tail * d;
  }

  lemma {:induction false} AmongNobody(events: seq<Event>)
    ensures Among(events, []) == []
  {
    if events != [] {
      AmongNobody(events[1..]);
    }
  }

  // ----- shares -----

  function AtLeast(twab: seq<Item>, min: int): seq<Item> {
    if twab == [] then []
    else if twab[0].amount >= min then [twab[0]] + AtLeast(twab[1..], min)
    else AtLeast(twab[1..], min)
  }

  lemma {:induction false} AtLeastFacts(twab: seq<Item>, min: int)
    ensures forall it :: it in AtLeast(twab, min) <==> it in twab && it.amount >= min
    ensures Distinct(twab) ==> Distinct(AtLeast(twab, min))
  {
    if twab != [] {
      AtLeastFacts(twab[1..], min);
      assert forall it :: it in twab <==> it == twab[0] || it in twab[1..];
      var rest := AtLeast(twab[1..], min);
      assert forall i :: 0 <= i < |rest| ==> rest[i] in rest;
    }
  }

  /** Index of the largest balance; the first one on ties. */
  function Largest(eligible: seq<Item>): (i: nat)
    requires eligible != []
    ensures i < |eligible|
  {
    if |eligible| == 1 then 0 else
    var n := |eligible| - 1;
    var i := Largest(eligible[..n]);
    if eligible[n].amount > eligible[i].amount then n else i
  }

  lemma {:induction false} LargestIsLargest(eligible: seq<Item>)
    requires eligible != []
    ensures forall j :: 0 <= j < |eligible| ==> eligible[j].amount <= eligible[Largest(eligible)].amount
    ensures forall j :: 0 <= j < Largest(eligible) ==> eligible[j].amount < eligible[Largest(eligible)].amount
  {
    if |eligible| > 1 {
      LargestIsLargest(eligible[..|eligible| - 1]);
    }
  }

  function ProRata(total: nat, bal: nat, whole: nat): nat
    requires whole > 0
  {
    FloorDiv(total * bal, whole)
  }

  /** Everybody's floored pro-rata amount. */
  function Floors(eligible: seq<Item>, total: nat, whole: nat): seq<Item>
    requires whole > 0
  {
    seq(|eligible|, i requires 0 <= i < |eligible| => Item(eligible[i].wallet, ProRata(total, eligible[i].amount, whole)))
  }

  /** Floors fall short of the exact shares by less than one unit per wallet. */
  lemma {:induction false} FloorsShort(eligible: seq<Item>, total: nat, whole: nat)
    requires whole > 0
    ensures whole * Sum(Floors(eligible, total, whole)) <= total * Sum(eligible)
    ensures total * Sum(eligible) <= whole * Sum(Floors(eligible, total, whole)) + |eligible| * (whole - 1)
  {
    if eligible != [] {
      var rest := eligible[1..];
      FloorsShort(rest, total, whole);
      assert Floors(eligible, total, whole)[1..] == Floors(rest, total, whole);
      OneMoreFloor(total, whole, eligible[0].amount, Sum(rest), Sum(Floors(rest, total, whole)), |rest|);
    }
  }

  lemma OneMoreFloor(total: nat, whole: nat, bal: nat, restBal: nat, restFloors: nat, n: nat)
    requires whole > 0
    requires whole * restFloors <= total * restBal <= whole * restFloors + n * (whole - 1)
    ensures var floors := ProRata(total, bal, whole) + restFloors;
      whole * floors <= total * (bal + restBal) <= whole * floors + (n + 1) * (whole - 1)
  {
    var x := total * bal;
    assert x == whole * (x / whole) + x % whole;
    assert total * (bal + restBal) == x + total * restBal;
    assert whole * (x / whole + restFloors) == whole * (x / whole) + whole * restFloors;
    assert (n + 1) * (whole - 1) == (whole - 1) + n * (whole - 1);
  }

  /** What rounding leaves over is non-negative and less than the number of wallets. */
  lemma DustIsSmall(eligible: seq<Item>, total: nat)
    requires Sum(eligible) > 0
    ensures 0 <= total - Sum(Floors(eligible, total, Sum(eligible))) < |eligible|
  {
    var whole := Sum(eligible);
    FloorsShort(eligible, total, whole);
    assert eligible != [];
    RoundingLoss(whole, Sum(Floors(eligible, total, whole)), total, |eligible|);
  }

  /** Floors for everybody, plus the dust for the largest holder. */
  function SharesOf(eligible: seq<Item>, total: nat): seq<Item> {
    if Sum(eligible) == 0 || eligible == [] then [] else
    var floors := Floors(eligible, total, Sum(eligible));
    var largest := Largest(eligible);
    DustIsSmall(eligible, total);
    floors[largest := Item(floors[largest].wallet, floors[largest].amount + (total - Sum(floors)))]
  }

  /** First pass: floors, what they add up to, and the first largest holder. */
  method FloorShares(eligible: seq<Item>, total: nat, twabTotal: nat) returns (shares: seq<Item>, distributed: nat, largest: nat)
    requires twabTotal > 0 && eligible != []
    ensures shares == Floors(eligible, total, twabTotal) && distributed == Sum(shares) && largest == Largest(eligible)
  {
    shares, distributed, largest := [], 0, 0;
    var largestBal: int := -1;
    for i := 0 to |eligible|
      invariant shares == Floors(eligible[..i], total, twabTotal)
      invariant distributed == Sum(shares)
      invariant i == 0 ==> largest == 0 && largestBal == -1
      invariant i > 0 ==> largest == Largest(eligible[..i]) && largestBal == eligible[largest].amount
    {
      var share := Item(eligible[i].wallet, ProRata(total, eligible[i].amount, twabTotal));
      SumConcat(shares, [share]);
      assert eligible[..i + 1][..i] == eligible[..i];
      shares := shares + [share];
      distributed := distributed + share.amount;
      if eligible[i].amount > largestBal {
        largestBal := eligible[i].amount;
        largest := i;
      }
    }
    assert eligible[..|eligible|] == eligible;
  }

  /** Division of unbounded integers in the code's language rounds towards zero. */
  function Truncated(n: int, d: nat): int
    requires d > 0
  {
    if n >= 0 then n / d else -(-n / d)
  }

  /** Dollars to the nearest cent, halves up. */
  function Cents(usd: real): int {
    (usd * 100.0 + 0.5).Floor
  }

  /** A minimum holding in dollars, in base units of the coin at its price (at exponent -8). */
  function MinHolding(usd: real, priceUsd8: int, coinDecimals: nat): int
    requires priceUsd8 > 0
  {
    Truncated(Cents(usd) * 100_000_000 * Pow10(coinDecimals), 100 * priceUsd8)
  }

  /** Who passes: exactly those with whom one more base unit would be worth more than the minimum. */
  lemma EligibleIff(bal: nat, usd: real, priceUsd8: int, coinDecimals: nat)
    requires priceUsd8 > 0
    ensures bal >= MinHolding(usd, priceUsd8, coinDecimals) <==>
      100 * priceUsd8 * (bal + 1) > Cents(usd) * 100_000_000 * Pow10(coinDecimals)
    ensures -0.5 < Cents(usd) as real - usd * 100.0 <= 0.5
  {
    var n, d := Cents(usd) * 100_000_000 * Pow10(coinDecimals), 100 * priceUsd8;
    MulLe(d, 1, bal + 1);
    if n >= 0 {
      FloorIff(n, d, bal + 1);
    } else {
      FloorIff(-n, d, 0);
    }
  }

  /** `None` for a price that is not positive. */
  method ComputeShares(twab: seq<Item>, total: nat, usd: real, priceUsd8: int, coinDecimals: nat) returns (r: Option<seq<Item>>)
    requires Distinct(twab)
    ensures r.None? <==> priceUsd8 <= 0
    ensures r.Some? ==> r.value == SharesOf(AtLeast(twab, MinHolding(usd, priceUsd8, coinDecimals)), total)
  {
    if priceUsd8 <= 0 {
      return None;
    }
    var eligible := AtLeast(twab, MinHolding(usd, priceUsd8, coinDecimals));
    var twabTotal := Sum(eligible);
    if twabTotal == 0 || eligible == [] {
      return Some([]);
    }
    var shares, distributed, largest := FloorShares(eligible, total, twabTotal);
    DustIsSmall(eligible, total);
    var remainder := total - distributed;
    if remainder > 0 {
      shares := shares[largest := Item(shares[largest].wallet, shares[largest].amount + remainder)];
    }
    assert shares == SharesOf(eligible, total);
    return Some(shares);
  }

  lemma SumUpdate(items: seq<Item>, i: nat, extra: nat)
    requires i < |items|
    ensures Sum(items[i := Item(items[i].wallet, items[i].amount + extra)]) == Sum(items) + extra
  {
    var after := items[i := Item(items[i].wallet, items[i].amount + extra)];
    SumAround(items, i);
    SumAround(after, i);
    assert after[..i] == items[..i] && after[i + 1..] == items[i + 1..];
  }

  /** Nothing is lost or created: the shares of a non-empty total add up to exactly `total`. */
  lemma SharesConserve(eligible: seq<Item>, total: nat)
    requires Sum(eligible) > 0
    ensures Sum(SharesOf(eligible, total)) == total
    ensures |SharesOf(eligible, total)| == |eligible|
    ensures forall i :: 0 <= i < |eligible| ==> SharesOf(eligible, total)[i].wallet == eligible[i].wallet
  {
    var floors := Floors(eligible, total, Sum(eligible));
    DustIsSmall(eligible, total);
    assert eligible != [];
    SumUpdate(floors, Largest(eligible), total - Sum(floors));
  }

  /** `share` is the part `bal` / `whole` of the total, rounded down. */
  ghost predicate RoundedDown(total: nat, bal: nat, whole: nat, share: nat) {
    whole * share <= total * bal < whole * (share + 1)
  }

  /** `share` is at least that, and less than `n` units more than the exact part. */
  ghost predicate RoundedUpTo(total: nat, bal: nat, whole: nat, share: nat, n: nat) {
    total * bal < whole * (share + 1) && whole * share < total * bal + whole * n
  }

  /**
   Fairness: everybody gets the pro-rata part of the total, rounded down, except one largest holder who gets
   less than one unit per wallet more.
   */
  lemma SharesFair(eligible: seq<Item>, total: nat, i: nat)
    requires Sum(eligible) > 0 && i < |eligible|
    ensures var s := SharesOf(eligible, total);
      && |s| == |eligible| && s[i].wallet == eligible[i].wallet
      && RoundedUpTo(total, eligible[i].amount, Sum(eligible), s[i].amount, |eligible|)
      && (i != Largest(eligible) ==> RoundedDown(total, eligible[i].amount, Sum(eligible), s[i].amount))
  {
    ShareIs(eligible, total, i);
    AroundFloor(total, eligible[i].amount, Sum(eligible), SharesOf(eligible, total)[i].amount, |eligible|);
  }

  lemma ShareIs(eligible: seq<Item>, total: nat, i: nat)
    requires Sum(eligible) > 0 && i < |eligible|
    ensures var s := SharesOf(eligible, total); var exact := ProRata(total, eligible[i].amount, Sum(eligible));
      && |s| == |eligible| && s[i].wallet == eligible[i].wallet
      && exact <= s[i].amount < exact + |eligible| && (i != Largest(eligible) ==> s[i].amount == exact)
  {
    DustIsSmall(eligible, total);
  }

  lemma AroundFloor(total: nat, bal: nat, whole: nat, share: nat, n: nat)
    requires whole > 0 && ProRata(total, bal, whole) <= share < ProRata(total, bal, whole) + n
    ensures RoundedUpTo(total, bal, whole, share, n)
    ensures share == ProRata(total, bal, whole) ==> RoundedDown(total, bal, whole, share)
  {
    var x, exact := total * bal, ProRata(total, bal, whole);
    FloorIff(x, whole, exact);
    FloorIff(x, whole, share + 1);
    FloorIff(x, whole, exact + 1);
    MulLt(whole, share, exact + n);
    assert whole * (exact + n) == whole * exact + whole * n;
  }

  /** A larger balance never gets less. */
  lemma SharesMonotone(eligible: seq<Item>, total: nat, i: nat, j: nat)
    requires Sum(eligible) > 0 && i < |eligible| && j < |eligible| && eligible[i].amount < eligible[j].amount
    ensures |SharesOf(eligible, total)| == |eligible|
    ensures SharesOf(eligible, total)[i].amount <= SharesOf(eligible, total)[j].amount
  {
    ShareIs(eligible, total, i);
    ShareIs(eligible, total, j);
    LargestIsLargest(eligible);
    ProRataMonotone(total, eligible[i].amount, eligible[j].amount, Sum(eligible));
  }

  lemma ProRataMonotone(total: nat, x: nat, y: nat, whole: nat)
    requires whole > 0 && x <= y
    ensures ProRata(total, x, whole) <= ProRata(total, y, whole)
  {
    MulLe(total, x, y);
    FloorMonotone(total * x, total * y, whole);
  }

  // ----- the plan -----

  function Keep(items: seq<Item>, wallets: set<Key>): seq<Item> {
    if items == [] then []
    else if items[0].wallet in wallets then [items[0]] + Keep(items[1..], wallets)
    else Keep(items[1..], wallets)
  }

  lemma {:induction false} KeepMembers(items: seq<Item>, wallets: set<Key>)
    ensures forall it :: it in Keep(items, wallets) <==> it in items && it.wallet in wallets
  {
    if items != [] {
      KeepMembers(items[1..], wallets);
      assert forall it :: it in items <==> it == items[0] || it in items[1..];
    }
  }

  lemma {:induction false} KeepDistinct(items: seq<Item>, wallets: set<Key>)
    requires Distinct(items)
    ensures Distinct(Keep(items, wallets))
  {
    if items != [] {
      KeepDistinct(items[1..], wallets);
      KeepMembers(items[1..], wallets);
      var rest := Keep(items[1..], wallets);
      forall i | 0 <= i < |rest| ensures rest[i].wallet != items[0].wallet {
        assert rest[i] in rest;
      }
    }
  }

  lemma {:induction false} DropZeros(items: seq<Item>)
    ensures Sum(AtLeast(items, 1)) == Sum(items)
  {
    if items != [] {
      DropZeros(items[1..]);
      var rest := AtLeast(items[1..], 1);
      assert ([items[0]] + rest)[1..] == rest;
    }
  }

  lemma SharesDistinct(eligible: seq<Item>, total: nat)
    requires Distinct(eligible)
    ensures Distinct(SharesOf(eligible, total))
    ensures SharesOf(eligible, total) == [] || Sum(SharesOf(eligible, total)) == total
  {
    if Sum(eligible) > 0 {
      SharesConserve(eligible, total);
    }
  }

  lemma PositiveSorted(shares: seq<Item>)
    requires Distinct(shares)
    ensures var plan := SortByWallet(AtLeast(shares, 1));
      && Ascending(plan) && Positive(plan) && Sum(plan) == Sum(shares)
      && forall it :: it in plan <==> it in shares && it.amount > 0
  {
    var items := AtLeast(shares, 1);
    AtLeastFacts(shares, 1);
    DropZeros(shares);
    var plan := SortByWallet(items);
    SortByWalletSorts(items);
    SameItemsSameSum(plan, items);
    SameElements(plan, items);
    assert forall i :: 0 <= i < |plan| ==> plan[i] in plan;
  }

  /** What a plan is computed from: balance events, program-owned addresses, and who passes the holding filter. */
  datatype Basis = Basis(events: seq<Event>, exclude: set<Key>, heldEnough: set<Key>)

  /** Average balances of everybody who counts. */
  function EligibleFor(b: Basis, start: int, end: int): seq<Item>
    requires start < end
  {
    AtLeast(Keep(Averages(FirstSeen(b.events, b.exclude), b.events, start, end), b.heldEnough), 0)
  }

  /** Everybody's share of `total`. */
  function SharesFor(b: Basis, start: int, end: int, total: nat): seq<Item>
    requires start < end
  {
    SharesOf(EligibleFor(b, start, end), total)
  }

  /** The positive shares, sorted by wallet; empty when there are none. */
  function PlanOf(b: Basis, start: int, end: int, total: nat): seq<Item>
    requires start < end
  {
    SortByWallet(AtLeast(SharesFor(b, start, end, total), 1))
  }

  lemma EligibleDistinct(b: Basis, start: int, end: int)
    requires start < end
    ensures Distinct(EligibleFor(b, start, end))
  {
    FirstSeenFacts(b.events, b.exclude);
    AveragesFacts(FirstSeen(b.events, b.exclude), b.events, start, end);
    var twab := Averages(FirstSeen(b.events, b.exclude), b.events, start, end);
    KeepDistinct(twab, b.heldEnough);
    AtLeastFacts(Keep(twab, b.heldEnough), 0);
  }

  /**
   Who counts, and with what: exactly the wallets that are not program-owned, pass the holding filter and weigh
   something, each with its average balance over the window.
   */
  lemma WhoIsEligible(b: Basis, start: int, end: int)
    requires start < end
    ensures forall it: Item :: it in EligibleFor(b, start, end) <==>
      it.wallet !in b.exclude && it.wallet in b.heldEnough && IsAverage(it, b.events, start, end)
  {
    var order := FirstSeen(b.events, b.exclude);
    var twab := Averages(order, b.events, start, end);
    FirstSeenFacts(b.events, b.exclude);
    AveragesFacts(order, b.events, start, end);
    KeepMembers(twab, b.heldEnough);
    AtLeastFacts(Keep(twab, b.heldEnough), 0);
    forall it: Item | it.wallet !in b.exclude && IsAverage(it, b.events, start, end) ensures it.wallet in order {
      WeightNeedsEvents(b.events, it.wallet, start, end);
    }
  }

  /** A plan is sorted, positive, lists exactly the positive shares, and adds up to the total unless it is empty. */
  lemma PlanFacts(b: Basis, start: int, end: int, total: nat)
    requires start < end
    ensures var plan := PlanOf(b, start, end, total);
      && Ascending(plan) && Positive(plan) && (plan == [] || Sum(plan) == total)
      && forall it: Item :: it in plan <==> it.amount > 0 && it in SharesFor(b, start, end, total)
  {
    EligibleDistinct(b, start, end);
    SharesDistinct(EligibleFor(b, start, end), total);
    PositiveSorted(SharesFor(b, start, end, total));
  }

  /**
   What a plan pays. Every entry is for a wallet that counts, in proportion to its average up to rounding (and
   the dust, less than one unit per wallet); nobody who is program-owned or fails the filter is paid.
   */
  lemma PlanIsFair(b: Basis, start: int, end: int, total: nat, it: Item) returns (average: nat)
    requires start < end && it in PlanOf(b, start, end, total)
    ensures it.wallet !in b.exclude && it.wallet in b.heldEnough && IsAverage(Item(it.wallet, average), b.events, start, end)
    ensures RoundedUpTo(total, average, Sum(EligibleFor(b, start, end)), it.amount, |EligibleFor(b, start, end)|)
  {
    var eligible, shares := EligibleFor(b, start, end), SharesFor(b, start, end, total);
    PlanFacts(b, start, end, total);
    var i :| 0 <= i < |shares| && shares[i] == it;
    SharesConserve(eligible, total);
    average := eligible[i].amount;
    assert Item(it.wallet, average) == eligible[i];
    WhoIsEligible(b, start, end);
    SharesFair(eligible, total, i);
  }

  /** Everybody who counts and whose part of the total is at least one unit is in the plan. */
  lemma PlanIsComplete(b: Basis, start: int, end: int, total: nat, w: Key, average: nat)
    requires start < end && w !in b.exclude && w in b.heldEnough && IsAverage(Item(w, average), b.events, start, end)
    requires Sum(EligibleFor(b, start, end)) <= total * average && average > 0
    ensures w in Wallets(PlanOf(b, start, end, total))
  {
    var eligible, shares := EligibleFor(b, start, end), SharesFor(b, start, end, total);
    WhoIsEligible(b, start, end);
    PlanFacts(b, start, end, total);
    var i :| 0 <= i < |eligible| && eligible[i] == Item(w, average);
    MemberAtMostSum(eligible, eligible[i]);
    SharesFair(eligible, total, i);
    assert shares[i].amount > 0 by {
      MulCancelLt(Sum(eligible), 1, shares[i].amount + 1);
    }
    assert shares[i] in PlanOf(b, start, end, total);
    assert forall j :: 0 <= j < |PlanOf(b, start, end, total)| ==> PlanOf(b, start, end, total)[j].wallet in Wallets(PlanOf(b, start, end, total));
  }

  /** Nobody who counts holds a whole base unit on average. */
  ghost predicate NobodyHolds(b: Basis, start: int, end: int)
    requires start < end
  {
    forall it: Item :: it.wallet !in b.exclude && it.wallet in b.heldEnough && IsAverage(it, b.events, start, end) ==> it.amount == 0
  }

  /** There is no plan exactly when there is nothing to share out, or nobody who counts holds a whole unit on average. */
  lemma NobodyToPay(b: Basis, start: int, end: int, total: nat)
    requires start < end
    ensures PlanOf(b, start, end, total) == [] <==> total == 0 || NobodyHolds(b, start, end)
  {
    var eligible, shares, plan := EligibleFor(b, start, end), SharesFor(b, start, end, total), PlanOf(b, start, end, total);
    WhoIsEligible(b, start, end);
    EligibleDistinct(b, start, end);
    SharesDistinct(eligible, total);
    PositiveSorted(shares);
    SumIsZero(eligible);
    if Sum(eligible) > 0 {
      SharesConserve(eligible, total);
      PositiveSum(plan);
    }
  }

  lemma {:induction false} SumIsZero(items: seq<Item>)
    ensures Sum(items) == 0 <==> forall it: Item :: it in items ==> it.amount == 0
  {
    if items != [] {
      SumIsZero(items[1..]);
      assert forall it :: it in items <==> it == items[0] || it in items[1..];
    }
  }

  /**
   The plan of an epoch. Whatever the events and whichever wallets pass the holding filter, a plan is
   sorted by wallet, pays positive amounts, adds up to exactly the total and holds exactly the positive shares.
   */
  method ComputePlan(b: Basis, start: int, end: int, total: nat) returns (r: Option<seq<Item>>)
    requires start < end
    ensures (if r.Some? then r.value else []) == PlanOf(b, start, end, total)
    ensures r.Some? ==> r.value != [] && Ascending(r.value) && Positive(r.value) && Sum(r.value) == total
    ensures var plan := if r.Some? then r.value else [];
      forall it: Item :: it in plan <==> it.amount > 0 && it in SharesFor(b, start, end, total)
    ensures r.Some? ==> forall it: Item :: it in r.value ==> it.wallet !in b.exclude && it.wallet in b.heldEnough
    ensures r.None? <==> total == 0 || NobodyHolds(b, start, end)
  {
    PlanFacts(b, start, end, total);
    NobodyToPay(b, start, end, total);
    forall it: Item | it in PlanOf(b, start, end, total) ensures it.wallet !in b.exclude && it.wallet in b.heldEnough {
      var average := PlanIsFair(b, start, end, total, it);
    }
    var twab := ComputeTwab(b.events, start, end, b.exclude);
    if twab.value == [] {
      return None;
    }
    var eligible := Keep(twab.value, b.heldEnough);
    KeepDistinct(twab.value, b.heldEnough);
    if eligible == [] {
      return None;
    }
    NoMinimum();
    var split := ComputeShares(eligible, total, 0.0, 1, 0);
    var items := AtLeast(split.value, 1);
    if items == [] {
      return None;
    }
    var plan := SortByWallet(items);
    SortedLength(items);
    return Some(plan);
  }

  lemma NoMinimum()
    ensures MinHolding(0.0, 1, 0) == 0
  {}

  lemma {:induction false} SortedLength(items: seq<Item>)
    ensures |SortByWallet(items)| == |items|
  {
    if items != [] {
      SortedLength(items[1..]);
      InsertByWalletHolds(items[0], SortByWallet(items[1..]));
      SameElements(SortByWallet(items), [items[0]] + SortByWallet(items[1..]));
    }
  }
}
