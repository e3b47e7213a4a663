/**
 Lists of (wallet, amount): share plans, pushed payouts and claim-tree entries, and what is left of
 a plan once some wallets have been paid.
 */
module Items {
  import opened Merkle
  import opened Prelude
  import opened Sequences

  datatype Item = Item(wallet: Key, amount: nat)

  function Sum(items: seq<Item>): nat {
    if items == [] then 0 else items[0].amount + Sum(items[1..])
  }

  function Wallets(items: seq<Item>): set<Key> {
    set i | 0 <= i < |items| :: items[i].wallet
  }

  ghost predicate Distinct(items: seq<Item>) {
    forall i, j :: 0 <= i < j < |items| ==> items[i].wallet != items[j].wallet
  }

  ghost predicate Ascending(items: seq<Item>) {
    forall i, j :: 0 <= i < j < |items| ==> items[i].wallet < items[j].wallet
  }

  ghost predicate Positive(items: seq<Item>) {
    forall i :: 0 <= i < |items| ==> 0 < items[i].amount
  }

  ghost predicate Within(items: seq<Item>, plan: seq<Item>) {
    forall i :: 0 <= i < |items| ==> items[i] in plan
  }

  /** Amounts fit the program's u64. */
  ghost predicate FitU64(items: seq<Item>) {
    forall i :: 0 <= i < |items| ==> items[i].amount <= U64_MAX
  }

  /** The entries of `plan` whose wallet is not in `paid`, in plan order. */
  function Remainder(plan: seq<Item>, paid: set<Key>): (rest: seq<Item>)
    ensures forall it :: it in rest <==> it in plan && it.wallet !in paid
  {
    if plan == [] then [] else
    var rest := Remainder(plan[1..], paid);
    assert forall it :: it in plan <==> it == plan[0] || it in plan[1..];
    if plan[0].wallet in paid then rest else [plan[0]] + rest
  }

  lemma {:induction false} RemainderAscends(plan: seq<Item>, paid: set<Key>)
    requires Ascending(plan)
    ensures Ascending(Remainder(plan, paid)) && Distinct(Remainder(plan, paid))
  {
    if plan != [] {
      RemainderAscends(plan[1..], paid);
      var rest := Remainder(plan[1..], paid);
      assert forall it :: it in rest ==> plan[0].wallet < it.wallet;
      if plan[0].wallet !in paid {
        PrependAscending(plan[0], rest);
      }
    }
  }

  lemma {:induction false} SumConcat(a: seq<Item>, b: seq<Item>)
    ensures Sum(a + b) == Sum(a) + Sum(b)
  {
    if a == [] {
      assert a + b == b;
    } else {
      SumConcat(a[1..], b);
      assert (a + b)[1..] == a[1..] + b;
    }
  }

  lemma {:induction false} PositiveSum(items: seq<Item>)
    requires Positive(items)
    ensures items == [] <==> Sum(items) == 0
    ensures |items| <= Sum(items)
  {
    if items != [] {
      PositiveSum(items[1..]);
    }
  }

  lemma {:induction false} MemberAtMostSum(items: seq<Item>, it: Item)
    requires it in items
    ensures it.amount <= Sum(items)
  {
    if it != items[0] {
      MemberAtMostSum(items[1..], it);
    }
  }

  /** Index of a wallet's entry. */
  function Position(items: seq<Item>, w: Key): (i: nat)
    requires w in Wallets(items)
    ensures i < |items| && items[i].wallet == w
  {
    if items[0].wallet == w then 0 else
    assert w in Wallets(items[1..]) by {
      var i :| 0 <= i < |items| && items[i].wallet == w;
      assert items[1..][i - 1].wallet == w;
    }
    1 + Position(items[1..], w)
  }

  lemma PositionIs(items: seq<Item>, i: nat)
    requires Distinct(items) && i < |items|
    ensures items[i].wallet in Wallets(items) && Position(items, items[i].wallet) == i
  {
    assert items[i].wallet in Wallets(items);
    var j := Position(items, items[i].wallet);
    assert items[j].wallet == items[i].wallet;
  }

  lemma {:induction false} RemainderOfNone(plan: seq<Item>)
    ensures Remainder(plan, {}) == plan
  {
    if plan != [] {
      RemainderOfNone(plan[1..]);
    }
  }

  lemma {:induction false} RemainderUntouched(plan: seq<Item>, paid: set<Key>, w: Key)
    requires w !in Wallets(plan)
    ensures Remainder(plan, paid + {w}) == Remainder(plan, paid)
  {
    if plan != [] {
      assert plan[0].wallet in Wallets(plan);
      assert Wallets(plan[1..]) <= Wallets(plan) by {
        assert forall i :: 0 <= i < |plan[1..]| ==> plan[1..][i] == plan[i + 1];
      }
      RemainderUntouched(plan[1..], paid, w);
    }
  }

  /** Paying one more plan entry takes exactly its amount out of the remainder. */
  lemma {:induction false} PayOne(plan: seq<Item>, paid: set<Key>, it: Item)
    requires Distinct(plan) && it in plan && it.wallet !in paid
    ensures Sum(Remainder(plan, paid + {it.wallet})) + it.amount == Sum(Remainder(plan, paid))
  {
    var head, tail := plan[0], plan[1..];
    assert Distinct(tail);
    if head == it {
      NotInTail(plan);
      RemainderUntouched(tail, paid, it.wallet);
    } else {
      var i :| 0 <= i < |plan| && plan[i] == it;
      assert tail[i - 1] == it;
      assert head.wallet != it.wallet;
      PayOne(tail, paid, it);
    }
  }

  lemma NotInTail(plan: seq<Item>)
    requires plan != [] && Distinct(plan)
    ensures plan[0].wallet !in Wallets(plan[1..])
  {}

  lemma AppendDistinct(items: seq<Item>, it: Item)
    requires Distinct(items) && it.wallet !in Wallets(items)
    ensures Distinct(items + [it]) && Sum(items + [it]) == Sum(items) + it.amount
    ensures Wallets(items + [it]) == Wallets(items) + {it.wallet}
  {
    var after := items + [it];
    forall i, j | 0 <= i < j < |after| ensures after[i].wallet != after[j].wallet {
      assert items[i].wallet in Wallets(items);
    }
    SumConcat(items, [it]);
    WalletsConcat(items, [it]);
    assert Wallets([it]) == {it.wallet} by {
      assert [it][0].wallet in Wallets([it]);
    }
  }

  /** Conservation: what was paid plus what remains is the plan. */
  lemma {:induction false} PaidPlusRemainder(plan: seq<Item>, paid: seq<Item>)
    requires Distinct(plan) && Distinct(paid) && Within(paid, plan)
    ensures Sum(paid) + Sum(Remainder(plan, Wallets(paid))) == Sum(plan)
  {
    if paid == [] {
      assert Wallets(paid) == {};
      RemainderOfNone(plan);
    } else {
      var n := |paid| - 1;
      var front, last := paid[..n], paid[n];
      PaidPlusRemainder(plan, front);
      SplitLast(paid);
      PayOne(plan, Wallets(front), last);
    }
  }

  lemma SplitLast(items: seq<Item>)
    requires items != [] && Distinct(items)
    ensures var front, last := items[..|items| - 1], items[|items| - 1];
      && Sum(items) == Sum(front) + last.amount
      && Wallets(items) == Wallets(front) + {last.wallet}
      && last.wallet !in Wallets(front)
  {
    var front, last := items[..|items| - 1], items[|items| - 1];
    assert items == front + [last];
    SumConcat(front, [last]);
    WalletsConcat(front, [last]);
    assert Wallets([last]) == {last.wallet} by {
      assert [last][0].wallet in Wallets([last]);
    }
  }

  lemma WalletsConcat(a: seq<Item>, b: seq<Item>)
    ensures Wallets(a + b) == Wallets(a) + Wallets(b)
  {
    forall w | w in Wallets(a) + Wallets(b) ensures w in Wallets(a + b) {
      if w in Wallets(a) {
        var i :| 0 <= i < |a| && a[i].wallet == w;
        assert (a + b)[i].wallet == w;
      } else {
        var i :| 0 <= i < |b| && b[i].wallet == w;
        assert (a + b)[|a| + i].wallet == w;
      }
    }
  }

  lemma WithinFacts(items: seq<Item>, plan: seq<Item>)
    requires Within(items, plan)
    ensures Positive(plan) ==> Positive(items)
    ensures plan == [] ==> items == []
  {
    if items != [] {
      assert items[0] in plan;
    }
  }

  /**
   Equal totals force equal contents: if every known payment is one of the real ones and the sums
   agree, then no real payment is missing.
   */
  lemma EqualSumsEqualWallets(known: seq<Item>, landed: seq<Item>)
    requires Distinct(known) && Distinct(landed) && Positive(landed) && Within(known, landed)
    ensures Sum(known) <= Sum(landed)
    ensures Sum(known) == Sum(landed) ==> Wallets(known) == Wallets(landed)
  {
    PaidPlusRemainder(landed, known);
    var missing := Remainder(landed, Wallets(known));
    assert forall i :: 0 <= i < |missing| ==> missing[i] in landed;
    PositiveSum(missing);
    assert Wallets(known) <= Wallets(landed) by {
      forall w | w in Wallets(known) ensures w in Wallets(landed) {
        var i :| 0 <= i < |known| && known[i].wallet == w;
        assert known[i] in landed;
      }
    }
    if missing == [] {
      forall w | w in Wallets(landed) ensures w in Wallets(known) {
        var i :| 0 <= i < |landed| && landed[i].wallet == w;
        assert landed[i] !in missing;
      }
    }
  }

  lemma SamePaidSameAmounts(known: seq<Item>, landed: seq<Item>, it: Item)
    requires Distinct(landed) && Within(known, landed) && it in landed && it.wallet in Wallets(known)
    ensures it in known
  {
    var i :| 0 <= i < |known| && known[i].wallet == it.wallet;
    assert known[i] in landed;
  }

  // ----- filtering twice, sorting -----

  /** Leaving out `a` and then `b` is leaving out both. */
  lemma {:induction false} RemainderTwice(plan: seq<Item>, a: set<Key>, b: set<Key>)
    ensures Remainder(Remainder(plan, a), b) == Remainder(plan, a + b)
  {
    if plan != [] {
      var rest := Remainder(plan[1..], a);
      RemainderTwice(plan[1..], a, b);
      if plan[0].wallet !in a {
        assert ([plan[0]] + rest)[1..] == rest;
      }
    }
  }

  function Unpaid(it: Item, paid: set<Key>): seq<Item> {
    if it.wallet in paid then [] else [it]
  }

  lemma RemainderStep(it: Item, rest: seq<Item>, paid: set<Key>)
    ensures Remainder([it] + rest, paid) == Unpaid(it, paid) + Remainder(rest, paid)
  {
    assert ([it] + rest)[1..] == rest;
  }

  lemma Regroup<T>(x: seq<T>, y: seq<T>, z: seq<T>)
    ensures x + (y + z) == x + y + z
  {}

  lemma {:induction false} RemainderConcat(a: seq<Item>, b: seq<Item>, paid: set<Key>)
    ensures Remainder(a + b, paid) == Remainder(a, paid) + Remainder(b, paid)
  {
    if a == [] {
      assert a + b == b;
    } else {
      var head, tail := a[0], a[1..];
      RemainderConcat(tail, b, paid);
      assert a == [head] + tail && a + b == [head] + (tail + b);
      RemainderStep(head, tail, paid);
      RemainderStep(head, tail + b, paid);
      Regroup(Unpaid(head, paid), Remainder(tail, paid), Remainder(b, paid));
    }
  }

  lemma MemberWallets(items: seq<Item>)
    ensures forall it :: it in items ==> it.wallet in Wallets(items)
  {}

  lemma {:induction false} OccursOnce(items: seq<Item>, it: Item)
    requires Distinct(items) && it in items
    ensures multiset(items)[it] == 1
  {
    assert items == [items[0]] + items[1..];
    if items[0] == it {
      NotInTail(items);
      MemberWallets(items[1..]);
    } else {
      assert it in items[1..];
      OccursOnce(items[1..], it);
    }
  }

  /** Lists without repeated wallets that have the same members hold the same items. */
  lemma SameMembersSameItems(a: seq<Item>, b: seq<Item>)
    requires Distinct(a) && Distinct(b) && forall it :: it in a <==> it in b
    ensures multiset(a) == multiset(b)
  {
    forall it ensures multiset(a)[it] == multiset(b)[it] {
      if it in a {
        OccursOnce(a, it);
        OccursOnce(b, it);
      } else {
        assert it !in multiset(a) && it !in multiset(b);
      }
    }
  }

  lemma FirstIsMember(items: seq<Item>)
    ensures items == [] || items[0] in items
  {}

  /** A sorted list is determined by its members. */
  lemma {:induction false} SameMembersSameList(a: seq<Item>, b: seq<Item>)
    requires Ascending(a) && Ascending(b) && forall it :: it in a <==> it in b
    ensures a == b
  {
    if a == [] || b == [] {
      FirstIsMember(a);
      FirstIsMember(b);
    } else {
      SameHead(a, b);
      SameTail(a, b);
      SameMembersSameList(a[1..], b[1..]);
      assert a == [a[0]] + a[1..] && b == [b[0]] + b[1..];
    }
  }

  lemma SameHead(a: seq<Item>, b: seq<Item>)
    requires Ascending(a) && Ascending(b) && a != [] && b != [] && a[0] in b && b[0] in a
    ensures a[0] == b[0]
  {
    var i :| 0 <= i < |b| && b[i] == a[0];
    var j :| 0 <= j < |a| && a[j] == b[0];
  }

  lemma SameTail(a: seq<Item>, b: seq<Item>)
    requires Ascending(a) && Ascending(b) && a != [] && b != [] && a[0] == b[0] && forall it :: it in a <==> it in b
    ensures forall it :: it in a[1..] <==> it in b[1..]
  {
    forall it ensures it in a[1..] <==> it in b[1..] {
      assert it in a <==> it == a[0] || it in a[1..];
      assert it in b <==> it == b[0] || it in b[1..];
      if i :| 0 <= i < |a[1..]| && a[1..][i] == it {
        assert a[i + 1] == it && a[0].wallet < a[i + 1].wallet;
      }
      if i :| 0 <= i < |b[1..]| && b[1..][i] == it {
        assert b[i + 1] == it && b[0].wallet < b[i + 1].wallet;
      }
    }
  }

  function InsertByWallet(it: Item, sorted: seq<Item>): seq<Item> {
    if sorted == [] || it.wallet <= sorted[0].wallet then [it] + sorted
    else [sorted[0]] + InsertByWallet(it, sorted[1..])
  }

  function SortByWallet(items: seq<Item>): seq<Item> {
    if items == [] then [] else InsertByWallet(items[0], SortByWallet(items[1..]))
  }

  lemma {:induction false} InsertByWalletHolds(it: Item, sorted: seq<Item>)
    ensures multiset(InsertByWallet(it, sorted)) == multiset{it} + multiset(sorted)
  {
    if sorted != [] && it.wallet > sorted[0].wallet {
      InsertByWalletHolds(it, sorted[1..]);
      assert sorted == [sorted[0]] + sorted[1..];
    }
  }

  lemma PrependAscending(head: Item, r: seq<Item>)
    requires Ascending(r) && forall x :: x in r ==> head.wallet < x.wallet
    ensures Ascending([head] + r)
  {}

  lemma InsertBelow(it: Item, tail: seq<Item>, head: Item)
    requires head.wallet < it.wallet && forall x :: x in tail ==> head.wallet < x.wallet
    requires multiset(InsertByWallet(it, tail)) == multiset{it} + multiset(tail)
    ensures forall x :: x in InsertByWallet(it, tail) ==> head.wallet < x.wallet
  {
    SameElements(InsertByWallet(it, tail), [it] + tail);
  }

  lemma {:induction false} InsertByWalletSorts(it: Item, sorted: seq<Item>)
    requires Ascending(sorted) && it.wallet !in Wallets(sorted)
    ensures Ascending(InsertByWallet(it, sorted))
    ensures multiset(InsertByWallet(it, sorted)) == multiset{it} + multiset(sorted)
  {
    InsertByWalletHolds(it, sorted);
    if sorted != [] {
      var head, tail := sorted[0], sorted[1..];
      assert head.wallet in Wallets(sorted);
      assert forall x :: x in tail ==> head.wallet < x.wallet;
      if it.wallet > head.wallet {
        TailWallets(sorted);
        InsertByWalletSorts(it, tail);
        InsertBelow(it, tail, head);
        PrependAscending(head, InsertByWallet(it, tail));
      } else {
        PrependAscending(it, sorted);
      }
    }
  }

  lemma TailWallets(items: seq<Item>)
    requires items != []
    ensures Wallets(items) == {items[0].wallet} + Wallets(items[1..])
  {
    assert items == [items[0]] + items[1..];
    WalletsConcat([items[0]], items[1..]);
    assert Wallets([items[0]]) == {items[0].wallet} by {
      assert [items[0]][0].wallet in Wallets([items[0]]);
    }
  }

  /** Sorting distinct wallets loses nothing and repeats nothing. */
  lemma {:induction false} SortByWalletSorts(items: seq<Item>)
    requires Distinct(items)
    ensures Ascending(SortByWallet(items))
    ensures multiset(SortByWallet(items)) == multiset(items)
    ensures Wallets(SortByWallet(items)) == Wallets(items)
  {
    if items != [] {
      SortByWalletSorts(items[1..]);
      NotInTail(items);
      TailWallets(items);
      var r := SortByWallet(items);
      InsertByWalletSorts(items[0], SortByWallet(items[1..]));
      assert items == [items[0]] + items[1..];
      SameItemsSameWallets(r, items);
    }
  }

  lemma SameItemsSameWallets(a: seq<Item>, b: seq<Item>)
    requires multiset(a) == multiset(b)
    ensures Wallets(a) == Wallets(b)
  {
    SameElements(a, b);
    forall w | w in Wallets(a) ensures w in Wallets(b) {
      var i :| 0 <= i < |a| && a[i].wallet == w;
      assert a[i] in b;
    }
    forall w | w in Wallets(b) ensures w in Wallets(a) {
      var i :| 0 <= i < |b| && b[i].wallet == w;
      assert b[i] in a;
    }
  }

  /** Re-sorting a list that is already sorted changes nothing, so a rebuilt tree has the same leaves in the same order. */
  lemma {:induction false} SortedStays(items: seq<Item>)
    requires Ascending(items)
    ensures SortByWallet(items) == items
  {
    if items != [] {
      SortedStays(items[1..]);
    }
  }

  lemma {:induction false} SameItemsSameSum(a: seq<Item>, b: seq<Item>)
    requires multiset(a) == multiset(b)
    ensures Sum(a) == Sum(b)
  {
    if a == [] {
      SameElements(a, b);
    } else {
      var i := DropFirst(a, b);
      SameItemsSameSum(a[1..], b[..i] + b[i + 1..]);
      SumConcat(b[..i], b[i + 1..]);
      SumAround(b, i);
    }
  }

  lemma SumAround(b: seq<Item>, i: nat)
    requires i < |b|
    ensures Sum(b) == Sum(b[..i]) + b[i].amount + Sum(b[i + 1..])
  {
    assert b == b[..i] + b[i..];
    SumConcat(b[..i], b[i..]);
    assert b[i..][1..] == b[i + 1..];
  }

  // ----- the tree over a list of entries -----

  function LeafDigests(epoch: Key, entries: seq<Item>): seq<Digest> {
    seq(|entries|, i requires 0 <= i < |entries| => LeafDigest(epoch, entries[i].wallet, entries[i].amount))
  }

  /** The root posted on chain: zero when nobody is left to claim. */
  function RootOf(epoch: Key, entries: seq<Item>): Digest {
    if entries == [] then ZERO_ROOT else Root(LeafDigests(epoch, entries))
  }

  /** Claim soundness: only an entry of the tree verifies, with its own amount and its own epoch. */
  lemma ClaimIsEntry(epoch: Key, entries: seq<Item>, e: Key, wallet: Key, amount: nat, proof: seq<Digest>)
    requires Fold(LeafDigest(e, wallet, amount), proof) == RootOf(epoch, entries)
    ensures e == epoch && Item(wallet, amount) in entries
  {
    var leaf := LeafDigest(e, wallet, amount);
    if entries == [] {
      NothingVerifiesAgainstZero(leaf, proof);
    } else {
      var leaves := LeafDigests(epoch, entries);
      VerifiedLeafIsInTree(leaves, leaf, proof);
      var i :| 0 <= i < |leaves| && leaves[i] == leaf;
      assert entries[i] == Item(wallet, amount);
    }
  }

  /** Claim completeness: every entry has a proof that verifies, short enough for the program when there are at most 2^32 entries. */
  lemma EntryCanClaim(epoch: Key, entries: seq<Item>, i: nat)
    requires i < |entries|
    ensures Fold(LeafDigest(epoch, entries[i].wallet, entries[i].amount), Proof(LeafDigests(epoch, entries), i)) == RootOf(epoch, entries)
    ensures |entries| <= Pow2(32) ==> |Proof(LeafDigests(epoch, entries), i)| <= 32
  {
    var leaves := LeafDigests(epoch, entries);
    ProofVerifies(leaves, i);
    if |entries| <= Pow2(32) {
      ProofLength(leaves, i, 32);
    }
  }

  datatype EpochTree = EpochTree(tree: Tree, entries: seq<Item>, total: nat)

  /** Builds the claim tree of one epoch; out-of-range amounts and repeated wallets are refused. */
  method BuildEpochTree(epoch: Key, entries: seq<Item>) returns (r: Result<EpochTree, MerkleError>)
    ensures r.Ok? <==> entries != [] && Distinct(entries) && FitU64(entries)
    ensures r.Ok? ==> r.value.tree == Tree(Layers(LeafDigests(epoch, entries)), RootOf(epoch, entries), |entries|)
    ensures r.Ok? ==> r.value.entries == entries && r.value.total == Sum(entries)
    ensures r == Err(NoEntries) <==> entries == []
    ensures r.Err? ==> r.error.NoEntries? || r.error.AmountOutOfRange? || r.error.DuplicateWallet?
    ensures r == Err(AmountOutOfRange) <==> !FitU64(entries)
    ensures r.Err? && r.error.DuplicateWallet? ==>
      exists i, j :: 0 <= i < j < |entries| && entries[i].wallet == entries[j].wallet == r.error.wallet
  {
    if entries == [] {
      return Err(NoEntries);
    }
    for i := 0 to |entries|
      invariant forall j :: 0 <= j < i ==> entries[j].amount <= U64_MAX
    {
      if entries[i].amount > U64_MAX {
        return Err(AmountOutOfRange);
      }
    }
    var seen: set<Key> := {};
    var total := 0;
    for i := 0 to |entries|
      invariant seen == Wallets(entries[..i]) && Distinct(entries[..i])
      invariant total == Sum(entries[..i])
    {
      var k := entries[i].wallet;
      if k in seen {
        var j :| 0 <= j < i && entries[..i][j].wallet == k;
        assert entries[j].wallet == entries[i].wallet;
        return Err(DuplicateWallet(k));
      }
      assert entries[..i + 1] == entries[..i] + [entries[i]];
      WalletsConcat(entries[..i], [entries[i]]);
      SumConcat(entries[..i], [entries[i]]);
      assert forall j :: 0 <= j < i ==> entries[..i][j].wallet in Wallets(entries[..i]);
      seen := seen + {k};
      total := total + entries[i].amount;
    }
    assert entries[..|entries|] == entries;
    var built := BuildTree(LeafDigests(epoch, entries));
    return Ok(EpochTree(built.value, entries, total));
  }

  /** The claim front end: index, amount and proof of a wallet. */
  method GetProofForWallet(epoch: Key, t: EpochTree, wallet: Key)
    returns (r: Result<(nat, nat, seq<Digest>), MerkleError>)
    requires t.entries != [] && t.tree.layers == Layers(LeafDigests(epoch, t.entries))
    ensures r.Ok? <==> wallet in Wallets(t.entries)
    ensures r.Ok? ==> r.value.0 < |t.entries| && t.entries[r.value.0] == Item(wallet, r.value.1)
    ensures r.Ok? ==> Fold(LeafDigest(epoch, wallet, r.value.1), r.value.2) == RootOf(epoch, t.entries)
  {
    var index := 0;
    while index < |t.entries| && t.entries[index].wallet != wallet
      invariant 0 <= index <= |t.entries|
      invariant forall i :: 0 <= i < index ==> t.entries[i].wallet != wallet
    {
      index := index + 1;
    }
    if index == |t.entries| {
      return Err(WalletNotInTree);
    }
    var proof := GetProof(LeafDigests(epoch, t.entries), t.tree.layers, index);
    return Ok((index, t.entries[index].amount, proof.value));
  }
}
