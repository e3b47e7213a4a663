/**
 When two readings of the tables give the same plan: the same positive shares, and in particular the same
 events in another order. The rows are read `order by ts` with nothing to break ties (db.ts), and the dust
 goes to the first-seen of equally large holders (twab.ts).
 */
module Plans {
  import opened Items
  import opened Merkle
  import opened Sequences
  import opened Shares
  import opened Twab

  /** Everybody gets the same positive amount. */
  ghost predicate SameShares(a: Basis, b: Basis, start: int, end: int, total: nat)
    requires start < end
  {
    forall it: Item :: it.amount > 0 ==> (it in SharesFor(a, start, end, total) <==> it in SharesFor(b, start, end, total))
  }

  /** Two readings give the same plan if and only if they give the same positive shares. */
  lemma SamePlanIff(a: Basis, b: Basis, start: int, end: int, total: nat)
    requires start < end
    ensures PlanOf(a, start, end, total) == PlanOf(b, start, end, total) <==> SameShares(a, b, start, end, total)
  {
    PlanFacts(a, start, end, total);
    PlanFacts(b, start, end, total);
    if SameShares(a, b, start, end, total) {
      SameMembersSameList(PlanOf(a, start, end, total), PlanOf(b, start, end, total));
    }
  }

  // ----- where the dust goes -----

  /** What rounding leaves over. */
  function Dust(eligible: seq<Item>, total: nat): int
    requires Sum(eligible) > 0
  {
    total - Sum(Floors(eligible, total, Sum(eligible)))
  }

  /** Nobody else holds as much as the largest holder. */
  ghost predicate UniqueLargest(eligible: seq<Item>) {
    forall i, j :: 0 <= i < j < |eligible| && eligible[i].amount == eligible[j].amount ==> eligible[i].amount < MostOf(eligible)
  }

  function MostOf(eligible: seq<Item>): nat {
    if eligible == [] then 0 else eligible[Largest(eligible)].amount
  }

  /** The order in which wallets first appear has no say in the shares. */
  ghost predicate TiesHarmless(eligible: seq<Item>, total: nat) {
    Sum(eligible) > 0 ==> Dust(eligible, total) == 0 || UniqueLargest(eligible)
  }

  /** Share of one wallet: its floor, and the dust if it is the first of the largest holders. */
  lemma ShareAt(eligible: seq<Item>, total: nat, i: nat)
    requires Sum(eligible) > 0 && i < |eligible|
    ensures |SharesOf(eligible, total)| == |eligible| && Dust(eligible, total) >= 0
    ensures SharesOf(eligible, total)[i] ==
      Item(eligible[i].wallet,
           ProRata(total, eligible[i].amount, Sum(eligible)) + if i == Largest(eligible) then Dust(eligible, total) else 0)
  {
    DustIsSmall(eligible, total);
  }

  lemma FloorsDistinct(eligible: seq<Item>, total: nat, whole: nat)
    requires whole > 0 && Distinct(eligible)
    ensures Distinct(Floors(eligible, total, whole))
  {}

  lemma FloorsMembers(a: seq<Item>, b: seq<Item>, total: nat, whole: nat)
    requires whole > 0 && forall it :: it in a ==> it in b
    ensures forall it :: it in Floors(a, total, whole) ==> it in Floors(b, total, whole)
  {
    forall it | it in Floors(a, total, whole) ensures it in Floors(b, total, whole) {
      var i :| 0 <= i < |a| && Floors(a, total, whole)[i] == it;
      assert a[i] in b;
      var j :| 0 <= j < |b| && b[j] == a[i];
      assert Floors(b, total, whole)[j] == it;
    }
  }

  /** The same holders in another order: the same total balance, the same dust, the same largest amount. */
  lemma SameHolders(a: seq<Item>, b: seq<Item>, total: nat)
    requires Distinct(a) && Distinct(b) && forall it :: it in a <==> it in b
    ensures Sum(a) == Sum(b) && MostOf(a) == MostOf(b)
    ensures Sum(a) > 0 ==> Dust(a, total) == Dust(b, total)
  {
    SameMembersSameItems(a, b);
    SameItemsSameSum(a, b);
    if Sum(a) > 0 {
      var f, g := Floors(a, total, Sum(a)), Floors(b, total, Sum(a));
      FloorsDistinct(a, total, Sum(a));
      FloorsDistinct(b, total, Sum(a));
      FloorsMembers(a, b, total, Sum(a));
      FloorsMembers(b, a, total, Sum(a));
      SameMembersSameItems(f, g);
      SameItemsSameSum(f, g);
    }
    AtMostMost(a, b);
    AtMostMost(b, a);
  }

  lemma AtMostMost(a: seq<Item>, b: seq<Item>)
    requires forall it :: it in a ==> it in b
    ensures MostOf(a) <= MostOf(b)
  {
    if a != [] {
      assert a[Largest(a)] in b;
      var j :| 0 <= j < |b| && b[j] == a[Largest(a)];
      LargestIsLargest(b);
    }
  }

  /** With the dust out of play, the same holders get the same shares. */
  lemma SharesKeepMembers(a: seq<Item>, b: seq<Item>, total: nat, it: Item)
    requires Distinct(a) && Distinct(b) && (forall x :: x in a <==> x in b) && TiesHarmless(a, total)
    requires it in SharesOf(a, total)
    ensures it in SharesOf(b, total)
  {
    SameHolders(a, b, total);
    var i :| 0 <= i < |SharesOf(a, total)| && SharesOf(a, total)[i] == it;
    ShareAt(a, total, i);
    assert a[i] in b;
    var j :| 0 <= j < |b| && b[j] == a[i];
    if Dust(a, total) != 0 {
      SameWinner(a, b, i, j);
    }
    SameShare(a, b, total, i, j);
  }

  lemma SameShare(a: seq<Item>, b: seq<Item>, total: nat, i: nat, j: nat)
    requires Sum(a) == Sum(b) > 0 && Dust(a, total) == Dust(b, total)
    requires i < |a| && j < |b| && a[i] == b[j]
    requires Dust(a, total) == 0 || (i == Largest(a) <==> j == Largest(b))
    ensures |SharesOf(a, total)| == |a| && SharesOf(a, total)[i] in SharesOf(b, total)
  {
    ShareAt(a, total, i);
    ShareAt(b, total, j);
    assert SharesOf(a, total)[i] == SharesOf(b, total)[j];
  }

  lemma SameWinner(a: seq<Item>, b: seq<Item>, i: nat, j: nat)
    requires Distinct(a) && Distinct(b) && (forall x :: x in a <==> x in b) && UniqueLargest(a) && MostOf(a) == MostOf(b)
    requires i < |a| && j < |b| && a[i] == b[j]
    ensures i == Largest(a) <==> j == Largest(b)
  {
    var u, v := Largest(a), Largest(b);
    assert b[v] in a;
    var w :| 0 <= w < |a| && a[w] == b[v];
    assert w == u by {
      assert a[w].amount == a[u].amount == MostOf(a);
    }
  }

  // ----- the order of the events -----

  ghost predicate Reorders(a: seq<Event>, b: seq<Event>) {
    multiset(a) == multiset(b)
  }

  /** Whatever their order, the same events make the same wallets eligible with the same averages. */
  lemma SameEligible(b: Basis, events: seq<Event>, start: int, end: int)
    requires start < end && Reorders(b.events, events)
    ensures forall it :: it in EligibleFor(b, start, end) <==> it in EligibleFor(b.(events := events), start, end)
  {
    var one, two := Averages(FirstSeen(b.events, b.exclude), b.events, start, end), Averages(FirstSeen(events, b.exclude), events, start, end);
    forall it ensures it in one <==> it in two {
      AveragesIgnoreOrder(b.events, events, start, end, b.exclude, it);
    }
    KeepMembers(one, b.heldEnough);
    KeepMembers(two, b.heldEnough);
    AtLeastFacts(Keep(one, b.heldEnough), 0);
    AtLeastFacts(Keep(two, b.heldEnough), 0);
  }

  /** The same events with those of wallet number `n` in front. */
  function InFront(events: seq<Event>, n: nat): seq<Event>
    requires n < |events|
  {
    [events[n]] + (events[..n] + events[n + 1..])
  }

  lemma InFrontReorders(events: seq<Event>, n: nat)
    requires n < |events|
    ensures Reorders(events, InFront(events, n))
  {
    WithoutOne(events, n);
    assert events[n] in multiset(events);
  }

  lemma {:induction false} FirstSeenStarts(e: Event, rest: seq<Event>, exclude: set<Key>)
    requires e.wallet !in exclude
    ensures FirstSeen([e] + rest, exclude) != [] && FirstSeen([e] + rest, exclude)[0] == e.wallet
  {
    var all := [e] + rest;
    if rest == [] {
      assert all[..0] == [];
    } else {
      FirstSeenStarts(e, rest[..|rest| - 1], exclude);
      assert all[..|all| - 1] == [e] + rest[..|rest| - 1];
    }
  }

  /** A wallet that counts and is seen first comes first among the eligible. */
  lemma FirstEligible(b: Basis, e: Event, rest: seq<Event>, it: Item, start: int, end: int)
    requires start < end && b.events == [e] + rest && it.wallet == e.wallet && it in EligibleFor(b, start, end)
    ensures EligibleFor(b, start, end)[0] == it
  {
    var order := FirstSeen(b.events, b.exclude);
    var twab := Averages(order, b.events, start, end);
    FirstSeenFacts(b.events, b.exclude);
    AveragesFacts(order, b.events, start, end);
    KeepMembers(twab, b.heldEnough);
    AtLeastFacts(Keep(twab, b.heldEnough), 0);
    FirstSeenStarts(e, rest, b.exclude);
    assert twab[0] == it;
  }

  /** If two wallets tie for the largest balance and there is dust, some order gives it to the other one. */
  lemma TiesMatter(b: Basis, start: int, end: int, total: nat) returns (other: seq<Event>)
    requires start < end && !TiesHarmless(EligibleFor(b, start, end), total)
    ensures Reorders(b.events, other) && !SameShares(b, b.(events := other), start, end, total)
  {
    var eligible := EligibleFor(b, start, end);
    EligibleDistinct(b, start, end);
    var loser := OtherLargest(eligible);
    var it := eligible[loser];
    other := LetFirst(b, it, start, end);
    var c := b.(events := other);
    SameEligible(b, other, start, end);
    EligibleDistinct(c, start, end);
    FirstGetsDust(eligible, EligibleFor(c, start, end), total, loser);
  }

  /** A largest holder gets the dust when it comes first, and not when another largest holder does. */
  lemma FirstGetsDust(a: seq<Item>, b: seq<Item>, total: nat, loser: nat)
    requires Distinct(a) && Distinct(b) && (forall x :: x in a <==> x in b) && Sum(a) > 0 && Dust(a, total) != 0
    requires loser < |a| && loser != Largest(a) && a[loser].amount == MostOf(a) && b != [] && b[0] == a[loser]
    ensures |SharesOf(b, total)| == |b| && SharesOf(b, total)[0] !in SharesOf(a, total) && SharesOf(b, total)[0].amount > 0
  {
    SameHolders(a, b, total);
    assert Largest(b) == 0 by {
      LargestIsLargest(b);
    }
    ShareAt(b, total, 0);
    DustIsSmall(a, total);
    var more := SharesOf(b, total)[0];
    if more in SharesOf(a, total) {
      OthersGetFloor(a, total, loser, more);
      assert false;
    }
  }

  lemma OthersGetFloor(eligible: seq<Item>, total: nat, i: nat, share: Item)
    requires Distinct(eligible) && Sum(eligible) > 0 && i < |eligible| && i != Largest(eligible)
    requires share in SharesOf(eligible, total) && share.wallet == eligible[i].wallet
    ensures share.amount == ProRata(total, eligible[i].amount, Sum(eligible))
  {
    var shares := SharesOf(eligible, total);
    var j :| 0 <= j < |shares| && shares[j] == share;
    ShareAt(eligible, total, i);
    ShareAt(eligible, total, j);
    OneIndex(eligible, i, j);
  }

  lemma OneIndex(items: seq<Item>, i: nat, j: nat)
    requires Distinct(items) && i < |items| && j < |items| && items[i].wallet == items[j].wallet
    ensures i == j
  {}

  lemma OtherLargest(eligible: seq<Item>) returns (i: nat)
    requires Distinct(eligible) && !UniqueLargest(eligible)
    ensures i < |eligible| && i != Largest(eligible) && eligible[i].amount == MostOf(eligible)
  {
    var x, y :| 0 <= x < y < |eligible| && eligible[x].amount == eligible[y].amount && eligible[x].amount >= MostOf(eligible);
    LargestIsLargest(eligible);
    i := if x == Largest(eligible) then y else x;
  }

  /** An order of the events in which an eligible wallet comes first. */
  lemma LetFirst(b: Basis, it: Item, start: int, end: int) returns (other: seq<Event>)
    requires start < end && it in EligibleFor(b, start, end)
    ensures Reorders(b.events, other)
    ensures EligibleFor(b.(events := other), start, end) != [] && EligibleFor(b.(events := other), start, end)[0] == it
  {
    var order := FirstSeen(b.events, b.exclude);
    var twab := Averages(order, b.events, start, end);
    FirstSeenFacts(b.events, b.exclude);
    AveragesFacts(order, b.events, start, end);
    KeepMembers(twab, b.heldEnough);
    AtLeastFacts(Keep(twab, b.heldEnough), 0);
    var n :| 0 <= n < |b.events| && b.events[n].wallet == it.wallet;
    other := InFront(b.events, n);
    InFrontReorders(b.events, n);
    SameEligible(b, other, start, end);
    FirstEligible(b.(events := other), b.events[n], b.events[..n] + b.events[n + 1..], it, start, end);
  }

  /**
   The plan depends on the events alone, whatever their order, if and only if rounding leaves no dust or no
   two wallets tie for the largest average.
   */
  lemma OrderIff(b: Basis, start: int, end: int, total: nat)
    requires start < end
    ensures (forall events :: Reorders(b.events, events) ==> SameShares(b, b.(events := events), start, end, total))
       <==> TiesHarmless(EligibleFor(b, start, end), total)
  {
    var eligible := EligibleFor(b, start, end);
    if TiesHarmless(eligible, total) {
      forall events | Reorders(b.events, events) ensures SameShares(b, b.(events := events), start, end, total) {
        HarmlessOrder(b, events, start, end, total);
      }
    } else {
      var events := TiesMatter(b, start, end, total);
    }
  }

  lemma HarmlessOrder(b: Basis, events: seq<Event>, start: int, end: int, total: nat)
    requires start < end && Reorders(b.events, events) && TiesHarmless(EligibleFor(b, start, end), total)
    ensures SameShares(b, b.(events := events), start, end, total)
  {
    var one, two := EligibleFor(b, start, end), EligibleFor(b.(events := events), start, end);
    SameEligible(b, events, start, end);
    EligibleDistinct(b, start, end);
    EligibleDistinct(b.(events := events), start, end);
    HarmlessBothWays(one, two, total);
    forall it: Item | it.amount > 0 ensures it in SharesOf(one, total) <==> it in SharesOf(two, total) {
      if it in SharesOf(one, total) {
        SharesKeepMembers(one, two, total, it);
      }
      if it in SharesOf(two, total) {
        SharesKeepMembers(two, one, total, it);
      }
    }
  }

  lemma HarmlessBothWays(a: seq<Item>, b: seq<Item>, total: nat)
    requires Distinct(a) && Distinct(b) && (forall x :: x in a <==> x in b) && TiesHarmless(a, total)
    ensures TiesHarmless(b, total)
  {
    SameHolders(a, b, total);
    if Sum(b) > 0 && Dust(b, total) != 0 {
      forall i, j | 0 <= i < j < |b| && b[i].amount == b[j].amount ensures b[i].amount < MostOf(b) {
        assert b[i] in a && b[j] in a;
        var x :| 0 <= x < |a| && a[x] == b[i];
        var y :| 0 <= y < |a| && a[y] == b[j];
      }
    }
  }

  // ----- a tie in one second -----

  /** Two wallets with one coin each since time 0, of which some pass the holding filter. */
  function TwoHolders(heldEnough: set<Key>): Basis {
    Basis([Event(1, 1, 0), Event(2, 1, 0)], {}, heldEnough)
  }

  lemma HolderAverages(heldEnough: set<Key>, start: nat)
    ensures var b := TwoHolders(heldEnough);
      Averages(FirstSeen(b.events, b.exclude), b.events, start, start + 10) == [Item(1, 1), Item(2, 1)]
  {
    var one, two := Event(1, 1, 0), Event(2, 1, 0);
    var events := [one, two];
    assert events[..1] == [one] && [one][..0] == [] && events[1..] == [two] && [two][1..] == [];
    assert FirstSeen([one], {}) == [1];
    assert FirstSeen(events, {}) == [1, 2];
    assert OfWallet([two], 1) == [] && OfWallet([two], 2) == [two];
    assert OfWallet(events, 1) == [one] && OfWallet(events, 2) == [two];
    TenSeconds(one, start);
    TenSeconds(two, start);
    assert [1, 2][1..] == [2] && [2][1..] == [];
    assert Averages([], events, start, start + 10) == [];
    assert Averages([2], events, start, start + 10) == [Item(2, 1)];
  }

  lemma TenSeconds(e: Event, start: nat)
    requires e.delta == 1 && e.ts == 0
    ensures Integral([e], start, start + 10) == 10
  {
    IntegralIsContributions([e], start, start + 10);
    ContributionIs(e, start, start + 10);
    assert [e][1..] == [];
  }

  /**
   Rows read by time come in either order when they share a second, and then the order decides who gets the
   dust: of two equal holders the one whose row happens to come first.
   */
  lemma TieInOneSecond() returns (b: Basis, other: seq<Event>)
    ensures Chronological(b.events) && Chronological(other) && Reorders(b.events, other)
    ensures !SameShares(b, b.(events := other), 0, 10, 1)
  {
    b := TwoHolders({1, 2});
    BothEligible();
    EqualHolders();
    other := TiesMatter(b, 0, 10, 1);
    SameElements(b.events, other);
    forall i | 0 <= i < |other| ensures other[i].ts == 0 {
      assert other[i] in b.events;
    }
  }

  lemma BothEligible()
    ensures EligibleFor(TwoHolders({1, 2}), 0, 10) == [Item(1, 1), Item(2, 1)]
  {
    var items := [Item(1, 1), Item(2, 1)];
    HolderAverages({1, 2}, 0);
    assert items[1..] == [Item(2, 1)] && [Item(2, 1)][1..] == [];
    assert Keep([Item(2, 1)], {1, 2}) == [Item(2, 1)] && Keep(items, {1, 2}) == items;
    assert AtLeast([Item(2, 1)], 0) == [Item(2, 1)] && AtLeast(items, 0) == items;
  }

  lemma EqualHolders()
    ensures !TiesHarmless([Item(1, 1), Item(2, 1)], 1)
  {
    var items, floors := [Item(1, 1), Item(2, 1)], [Item(1, 0), Item(2, 0)];
    assert items[1..] == [Item(2, 1)] && [Item(2, 1)][1..] == [];
    assert Sum([Item(2, 1)]) == 1 && Sum(items) == 2;
    assert Floors(items, 1, 2) == floors && floors[1..] == [Item(2, 0)] && [Item(2, 0)][1..] == [];
    assert Sum([Item(2, 0)]) == 0 && Sum(floors) == 0;
    assert items[0].amount == items[1].amount >= MostOf(items);
  }
}
