/**
 What the keeper's code relies on: what others can do while it waits, how a plan is split into pushes
 and a claim tree, and why every chunk it sends is acceptable.
 */
module PayoutRules {
  import opened Arith
  import opened Epochs
  import opened Items
  import opened Merkle
  import opened Prelude
  import opened Runs
  import opened Shares

  // ----- what others may do while the keeper waits -----

  predicate EnvironmentMay(w: World, m: Move) {
    m.index < |w| &&
    match m.action
    case LandOpen(o) => o in w[m.index].opens
    case LandFinalize(f) => f in w[m.index].finals
    case Claim(_, _) => true
    case InsertEpoch => w[m.index].chain.Some?
    case RecordPayout(it) => w[m.index].chain.Some? && it in w[m.index].chain.value.payouts
    case _ => false
  }

  /** What stays put while the keeper waits: its own rows, and everything pushed. */
  ghost predicate QuietSlot(s: Slot, t: Slot) {
    && t.row == s.row && t.leaves == s.leaves && t.opens == s.opens && t.finals == s.finals
    && t.origin == s.origin.(landed := t.origin.landed) && (s.chain.Some? ==> t.origin == s.origin)
    && Wallets(s.payouts) <= Wallets(t.payouts) && (s.listed ==> t.listed)
    && (s.chain.None? && t.chain.Some? ==> t.chain.value.payouts == [])
    && (s.chain.Some? ==>
          && t.chain.Some? && EpochEvolves(s.chain.value, t.chain.value)
          && t.chain.value.payouts == s.chain.value.payouts && t.chain.value.pushed == s.chain.value.pushed)
  }

  ghost predicate Quiet(w: World, v: World) {
    |v| == |w| && forall k :: 0 <= k < |w| ==> QuietSlot(w[k], v[k])
  }

  lemma QuietAction(index: nat, s: Slot, a: Action)
    requires a.LandOpen? || a.LandFinalize? || a.Claim? || a.InsertEpoch? || a.RecordPayout?
    ensures QuietSlot(s, Apply(index, s, a))
  {
    var t := Apply(index, s, a);
    assert s.chain.Some? ==> EpochEvolves(s.chain.value, t.chain.value);
    PrefixWallets(s.payouts, t.payouts);
  }

  lemma PrefixWallets(a: seq<Item>, b: seq<Item>)
    requires a <= b
    ensures Wallets(a) <= Wallets(b)
  {
    assert b == a + b[|a|..];
    WalletsConcat(a, b[|a|..]);
  }

  lemma QuietStep(w: World, m: Move)
    requires WorldOk(w) && EnvironmentMay(w, m)
    ensures MoveAllowed(w, m) && Quiet(w, Step(w, m))
  {
    assert MoveAllowed(w, m);
    QuietAction(m.index, w[m.index], m.action);
    forall k | 0 <= k < |w| ensures QuietSlot(w[k], Step(w, m)[k]) {
      assert k != m.index ==> Step(w, m)[k] == w[k];
    }
  }

  lemma QuietTransitive(u: World, v: World, w: World)
    requires Quiet(u, v) && Quiet(v, w)
    ensures Quiet(u, w)
  {
    forall k | 0 <= k < |u| ensures QuietSlot(u[k], w[k]) {
      assert QuietSlot(u[k], v[k]) && QuietSlot(v[k], w[k]);
    }
  }

  /** Which epochs the keeper has found on chain is the same. */
  ghost predicate SameSeen(w: World, v: World) {
    |v| == |w| && forall k :: 0 <= k < |w| ==> v[k].origin.seen == w[k].origin.seen
  }

  /** No two plans were saved for the same window. */
  ghost predicate WindowsDiffer(saves: seq<Save>) {
    forall i, j :: 0 <= i < j < |saves| ==>
      saves[i].row.startTs != saves[j].row.startTs || saves[i].row.endTs != saves[j].row.endTs
  }

  /** No two of the plans saved are the same list. */
  ghost predicate PlansDiffer(saves: seq<Save>) {
    forall i, j :: 0 <= i < j < |saves| ==> saves[i].row.plan != saves[j].row.plan
  }

  /** The stored plan is for the window that is on chain. */
  predicate WindowMatches(s: Slot) {
    s.row.Some? && s.chain.Some? && s.row.value.startTs == s.chain.value.startTs && s.row.value.endTs == s.chain.value.endTs
  }

  /** Until a plan is computed afresh, the stored window tells whether the epoch was opened for the stored plan. */
  lemma WindowTells(index: nat, s: Slot)
    requires SlotOk(index, s) && s.chain.Some? && s.origin.current.Some? && WindowsDiffer(s.origin.saves)
    ensures PaysItsOpen(s) <==> WindowMatches(s)
  {
    var sentFor := s.origin.saves[s.origin.landed.value];
    assert OpenFor(sentFor.row) == OpenOf(s.chain.value);
  }

  /** The slot's plan agrees with the chain, and exactly `paid` has been pushed. */
  ghost predicate PayingSlot(s: Slot, plan: seq<Item>, total: nat, paid: seq<Item>) {
    && s.chain.Some? && s.row.Some?
    && s.row.value.phase != Planned && s.row.value.phase != Finalized
    && s.row.value.plan == plan && s.row.value.total == total
    && s.chain.value.total == total && s.chain.value.payouts == paid
    && s.origin.seen && s.listed
  }

  /** An epoch as read at some earlier await: the chain may only have closed it or served claims since. */
  ghost predicate Snapshot(s: Slot, acc: Epoch) {
    && s.chain.Some? && EpochEvolves(acc, s.chain.value)
    && s.chain.value.payouts == acc.payouts && s.chain.value.pushed == acc.pushed
  }

  /** `amount` is at most the part of the total that may be pushed. */
  predicate UnderCap(amount: nat, total: nat, capBps: nat) {
    amount * 10_000 <= total * capBps
  }

  /**
   First come, first served: going through `remaining` in order, exactly those are pushed to who have an account and
   whose amount still fits under the cap on top of what was pushed before them.
   */
  ghost predicate FirstCome(remaining: seq<Item>, accounts: set<Key>, pushed: nat, total: nat, capBps: nat, pushable: seq<Item>) {
    && pushable == Keep(remaining, Wallets(pushable))
    && forall i :: 0 <= i < |remaining| ==> Served(remaining, i, accounts, pushed, total, capBps, Wallets(pushable))
  }

  /** Entry `i` is pushed to, that is, in `chosen`, exactly if it has an account and fits on top of those chosen before it. */
  predicate Served(remaining: seq<Item>, i: nat, accounts: set<Key>, pushed: nat, total: nat, capBps: nat, chosen: set<Key>)
    requires i < |remaining|
  {
    remaining[i].wallet in chosen <==>
      && remaining[i].wallet in accounts
      && UnderCap(pushed + Sum(Keep(remaining[..i], chosen)) + remaining[i].amount, total, capBps)
  }

  /**
   How an epoch was paid out: only wallets with a token account were pushed to, in plan order, and never past the
   cap; whoever has an account and was left to the claim tree would not have fitted under it.
   */
  ghost predicate PaidByRule(e: Epoch, earlier: seq<Item>, plan: seq<Item>, accounts: set<Key>, capBps: nat) {
    && earlier <= e.payouts
    && (forall i :: |earlier| <= i < |e.payouts| ==> e.payouts[i].wallet in accounts)
    && (e.payouts == earlier || UnderCap(e.pushed, e.total, capBps))
    && (forall it :: it in plan && it.wallet in accounts && it.wallet !in Wallets(e.payouts) ==>
          !UnderCap(e.pushed + it.amount, e.total, capBps))
    && FirstCome(Remainder(plan, Wallets(earlier)), accounts, Sum(earlier), e.total, capBps, e.payouts[|earlier|..])
  }

  lemma SplitPaysByRule(e: Epoch, earlier: seq<Item>, plan: seq<Item>, pushable: seq<Item>, merkle: seq<Item>, accounts: set<Key>, capBps: nat)
    requires e.payouts == earlier + pushable && merkle == Remainder(plan, Wallets(e.payouts))
    requires Wallets(pushable) <= accounts && (pushable == [] || e.pushed <= PushCap(e.total, capBps))
    requires forall it :: it in merkle && it.wallet in accounts ==> e.pushed + it.amount > PushCap(e.total, capBps)
    requires Ascending(plan) && pushable == Taken(Remainder(plan, Wallets(earlier)), accounts, Sum(earlier), PushCap(e.total, capBps))
    ensures PaidByRule(e, earlier, plan, accounts, capBps)
  {
    RemainderAscends(plan, Wallets(earlier));
    TakenIs(Remainder(plan, Wallets(earlier)), accounts, Sum(earlier), e.total, capBps);
    assert e.payouts[|earlier|..] == pushable;
    CapIs(e.total, capBps, e.pushed);
    forall it | it in plan && it.wallet in accounts && it.wallet !in Wallets(e.payouts) ensures !UnderCap(e.pushed + it.amount, e.total, capBps) {
      CapIs(e.total, capBps, e.pushed + it.amount);
    }
    forall i | |earlier| <= i < |e.payouts| ensures e.payouts[i].wallet in accounts {
      assert e.payouts[i] == pushable[i - |earlier|];
      assert pushable[i - |earlier|].wallet in Wallets(pushable);
    }
  }

  /** A plan for this epoch's total is stored. */
  predicate StoredFor(s: Slot, acc: Epoch) {
    s.row.Some? && s.row.value.total == acc.total
  }

  // ----- splitting what is left of a plan -----

  /** What may be pushed at most, rounded down. */
  function PushCap(total: nat, capBps: nat): nat {
    total * capBps / BPS
  }

  lemma CapIs(total: nat, capBps: nat, amount: nat)
    ensures amount <= PushCap(total, capBps) <==> UnderCap(amount, total, capBps)
  {
    FloorIff(total * capBps, BPS, amount);
  }

  /** Who is pushed to: in order, whoever has an account and still fits. */
  function Taken(remaining: seq<Item>, accounts: set<Key>, pushed: nat, pushCap: nat): seq<Item> {
    if remaining == [] then [] else
    var before, last := Taken(remaining[..|remaining| - 1], accounts, pushed, pushCap), remaining[|remaining| - 1];
    if last.wallet in accounts && pushed + Sum(before) + last.amount <= pushCap then before + [last] else before
  }

  lemma {:induction false} KeepConcat(a: seq<Item>, b: seq<Item>, wallets: set<Key>)
    ensures Keep(a + b, wallets) == Keep(a, wallets) + Keep(b, wallets)
  {
    if a == [] {
      assert a + b == b;
    } else {
      KeepConcat(a[1..], b, wallets);
      assert (a + b)[0] == a[0] && (a + b)[1..] == a[1..] + b;
      var front, back := Keep(a[1..], wallets), Keep(b, wallets);
      assert [a[0]] + (front + back) == [a[0]] + front + back;
    }
  }

  lemma {:induction false} KeepUntouched(items: seq<Item>, wallets: set<Key>, w: Key)
    requires w !in Wallets(items)
    ensures Keep(items, wallets + {w}) == Keep(items, wallets)
  {
    if items != [] {
      assert items[0].wallet in Wallets(items);
      TailWallets(items);
      KeepUntouched(items[1..], wallets, w);
    }
  }

  lemma {:induction false} TakenWithin(remaining: seq<Item>, accounts: set<Key>, pushed: nat, pushCap: nat)
    ensures Wallets(Taken(remaining, accounts, pushed, pushCap)) <= Wallets(remaining)
  {
    if remaining != [] {
      var n := |remaining| - 1;
      TakenWithin(remaining[..n], accounts, pushed, pushCap);
      WalletsOneMore(remaining, n);
      assert remaining[..n + 1] == remaining;
      var before := Taken(remaining[..n], accounts, pushed, pushCap);
      AddWallet(before, remaining[n]);
    }
  }

  lemma AddWallet(items: seq<Item>, it: Item)
    ensures Wallets(items + [it]) == Wallets(items) + {it.wallet}
  {
    assert (items + [it])[..|items|] == items && (items + [it])[..|items| + 1] == items + [it];
    WalletsOneMore(items + [it], |items|);
  }

  /** Going through the plan in order is first come, first served. */
  lemma {:induction false} TakenIs(remaining: seq<Item>, accounts: set<Key>, pushed: nat, total: nat, capBps: nat)
    requires Distinct(remaining)
    ensures FirstCome(remaining, accounts, pushed, total, capBps, Taken(remaining, accounts, pushed, PushCap(total, capBps)))
  {
    var cap := PushCap(total, capBps);
    if remaining != [] {
      var n := |remaining| - 1;
      var front, last := remaining[..n], remaining[n];
      TakenIs(front, accounts, pushed, total, capBps);
      TakenWithin(front, accounts, pushed, cap);
      assert last.wallet !in Wallets(front);
      CapIs(total, capBps, pushed + Sum(Taken(front, accounts, pushed, cap)) + last.amount);
      assert remaining == front + [last];
      FirstComeStep(front, last, accounts, pushed, total, capBps, Taken(front, accounts, pushed, cap));
    }
  }

  lemma FirstComeStep(front: seq<Item>, last: Item, accounts: set<Key>, pushed: nat, total: nat, capBps: nat, before: seq<Item>)
    requires FirstCome(front, accounts, pushed, total, capBps, before) && last.wallet !in Wallets(front) && Wallets(before) <= Wallets(front)
    ensures FirstCome(front + [last], accounts, pushed, total, capBps,
      if last.wallet in accounts && UnderCap(pushed + Sum(before) + last.amount, total, capBps) then before + [last] else before)
  {
    var fits := last.wallet in accounts && UnderCap(pushed + Sum(before) + last.amount, total, capBps);
    var all, after := front + [last], if fits then before + [last] else before;
    AddWallet(before, last);
    KeepConcat(front, [last], Wallets(after));
    KeepUntouched(front, Wallets(before), last.wallet);
    assert [last][1..] == [];
    assert after == Keep(all, Wallets(after));
    forall i | 0 <= i < |all| ensures Served(all, i, accounts, pushed, total, capBps, Wallets(after)) {
      if i < |front| {
        StillServed(front, last, i, accounts, pushed, total, capBps, Wallets(before));
      } else {
        assert all[..i] == front && before == Keep(front, Wallets(before));
        LastServed(front, last, accounts, pushed, total, capBps, before);
      }
    }
  }

  /** Choosing somebody later, or not, changes nothing for entry `i`. */
  lemma StillServed(front: seq<Item>, last: Item, i: nat, accounts: set<Key>, pushed: nat, total: nat, capBps: nat, chosen: set<Key>)
    requires i < |front| && last.wallet !in Wallets(front) && Served(front, i, accounts, pushed, total, capBps, chosen)
    ensures Served(front + [last], i, accounts, pushed, total, capBps, chosen)
    ensures Served(front + [last], i, accounts, pushed, total, capBps, chosen + {last.wallet})
  {
    var all := front + [last];
    assert all[..i] == front[..i] && all[i] == front[i] && front[i].wallet in Wallets(front);
    assert last.wallet !in Wallets(front[..i]) by {
      assert forall m :: 0 <= m < i ==> front[..i][m] == front[m];
    }
    KeepUntouched(front[..i], chosen, last.wallet);
  }

  lemma LastServed(front: seq<Item>, last: Item, accounts: set<Key>, pushed: nat, total: nat, capBps: nat, before: seq<Item>)
    requires before == Keep(front, Wallets(before)) && last.wallet !in Wallets(front) && Wallets(before) <= Wallets(front)
    ensures var fits := last.wallet in accounts && UnderCap(pushed + Sum(before) + last.amount, total, capBps);
      Served(front + [last], |front|, accounts, pushed, total, capBps, if fits then Wallets(before) + {last.wallet} else Wallets(before))
  {
    assert (front + [last])[..|front|] == front;
    KeepUntouched(front, Wallets(before), last.wallet);
  }

  /**
   Push to wallets that already have a token account while the cap lasts; the rest goes to the tree, in
   plan order. An entry is left to the tree only for want of an account or of room under the cap.
   */
  method Split(remaining: seq<Item>, accounts: set<Key>, pushed: nat, pushCap: nat)
    returns (pushable: seq<Item>, merkle: seq<Item>, pushedTotal: nat)
    requires Distinct(remaining)
    ensures Distinct(pushable) && Within(pushable, remaining) && Wallets(pushable) <= accounts
    ensures merkle == Remainder(remaining, Wallets(pushable))
    ensures pushedTotal == pushed + Sum(pushable)
    ensures pushable == [] || pushedTotal <= pushCap
    ensures forall it :: it in merkle && it.wallet in accounts ==> pushedTotal + it.amount > pushCap
    ensures pushable == Taken(remaining, accounts, pushed, pushCap)
  {
    pushable, merkle, pushedTotal := [], [], pushed;
    for i := 0 to |remaining|
      invariant Distinct(pushable) && Within(pushable, remaining[..i]) && Wallets(pushable) <= accounts
      invariant merkle == Remainder(remaining[..i], Wallets(pushable))
      invariant pushedTotal == pushed + Sum(pushable)
      invariant pushable == [] || pushedTotal <= pushCap
      invariant forall it :: it in merkle && it.wallet in accounts ==> pushedTotal + it.amount > pushCap
      invariant pushable == Taken(remaining[..i], accounts, pushed, pushCap)
    {
      var p := remaining[i];
      assert remaining[..i + 1][..i] == remaining[..i];
      SplitOne(remaining, i, pushable);
      if p.wallet in accounts && pushedTotal + p.amount <= pushCap {
        pushable := pushable + [p];
        pushedTotal := pushedTotal + p.amount;
      } else {
        merkle := merkle + [p];
      }
    }
    assert remaining[..|remaining|] == remaining;
  }

  lemma SplitOne(remaining: seq<Item>, i: nat, pushable: seq<Item>)
    requires i < |remaining| && Distinct(remaining) && Distinct(pushable) && Within(pushable, remaining[..i])
    ensures var p := remaining[i];
      && Distinct(pushable + [p]) && Within(pushable + [p], remaining[..i + 1]) && Within(pushable, remaining[..i + 1])
      && Sum(pushable + [p]) == Sum(pushable) + p.amount
      && Wallets(pushable + [p]) == Wallets(pushable) + {p.wallet}
      && Remainder(remaining[..i + 1], Wallets(pushable) + {p.wallet}) == Remainder(remaining[..i], Wallets(pushable))
      && Remainder(remaining[..i + 1], Wallets(pushable)) == Remainder(remaining[..i], Wallets(pushable)) + [p]
  {
    var p, before := remaining[i], remaining[..i];
    assert remaining[..i + 1] == before + [p];
    assert p.wallet !in Wallets(before);
    SplitNext(before, p, pushable);
  }

  lemma SplitNext(before: seq<Item>, p: Item, pushable: seq<Item>)
    requires Distinct(pushable) && Within(pushable, before) && p.wallet !in Wallets(before)
    ensures Distinct(pushable + [p]) && Within(pushable + [p], before + [p]) && Within(pushable, before + [p])
    ensures Sum(pushable + [p]) == Sum(pushable) + p.amount
    ensures Wallets(pushable + [p]) == Wallets(pushable) + {p.wallet}
    ensures Remainder(before + [p], Wallets(pushable) + {p.wallet}) == Remainder(before, Wallets(pushable))
    ensures Remainder(before + [p], Wallets(pushable)) == Remainder(before, Wallets(pushable)) + [p]
  {
    WithinWallets(pushable, before);
    AppendDistinct(pushable, p);
    RemainderLast(before, p, Wallets(pushable));
    RemainderLast(before, p, Wallets(pushable) + {p.wallet});
    RemainderUntouched(before, Wallets(pushable), p.wallet);
  }

  lemma RemainderLast(before: seq<Item>, p: Item, paid: set<Key>)
    ensures Remainder(before + [p], paid) == if p.wallet in paid then Remainder(before, paid) else Remainder(before, paid) + [p]
  {
    RemainderConcat(before, [p], paid);
    assert [p][1..] == [];
    assert Remainder([p], paid) == if p.wallet in paid then [] else [p];
  }

  lemma WithinWallets(items: seq<Item>, plan: seq<Item>)
    requires Within(items, plan)
    ensures Wallets(items) <= Wallets(plan)
  {
    forall w | w in Wallets(items) ensures w in Wallets(plan) {
      var i :| 0 <= i < |items| && items[i].wallet == w;
      assert items[i] in plan;
    }
  }

  // ----- lemmas about paying out a plan -----

  /** `pushable` and `merkle` split what `paid` leaves of the plan. */
  ghost predicate SplitOf(plan: seq<Item>, paid: seq<Item>, pushable: seq<Item>, merkle: seq<Item>) {
    && Ascending(plan) && Distinct(paid) && Within(paid, plan)
    && Distinct(pushable) && Within(pushable, Remainder(plan, Wallets(paid)))
    && merkle == Remainder(Remainder(plan, Wallets(paid)), Wallets(pushable))
  }

  lemma SplitIs(plan: seq<Item>, paid: seq<Item>, remaining: seq<Item>, pushable: seq<Item>, merkle: seq<Item>)
    requires Ascending(plan) && Distinct(paid) && Within(paid, plan) && remaining == Remainder(plan, Wallets(paid))
    requires Distinct(pushable) && Within(pushable, remaining) && merkle == Remainder(remaining, Wallets(pushable))
    ensures SplitOf(plan, paid, pushable, merkle)
  {}

  lemma SplitAddsUp(plan: seq<Item>, paid: seq<Item>, pushable: seq<Item>, merkle: seq<Item>)
    requires SplitOf(plan, paid, pushable, merkle)
    ensures Distinct(paid + pushable) && Within(paid + pushable, plan)
    ensures merkle == Remainder(plan, Wallets(paid + pushable))
    ensures Sum(paid) + Sum(pushable) + Sum(merkle) == Sum(plan)
  {
    var all := paid + pushable;
    WithinWallets(pushable, Remainder(plan, Wallets(paid)));
    forall i, j | 0 <= i < j < |all| ensures all[i].wallet != all[j].wallet {
      if i < |paid| <= j {
        assert pushable[j - |paid|] in Remainder(plan, Wallets(paid));
        assert paid[i].wallet in Wallets(paid);
      }
    }
    WalletsConcat(paid, pushable);
    RemainderTwice(plan, Wallets(paid), Wallets(pushable));
    PaidPlusRemainder(plan, all);
    SumConcat(paid, pushable);
  }

  /** Every chunk is an allowed push, and the program accepts it unless the epoch is already closed. */
  lemma ChunkFits(s: Slot, index: nat, paid: seq<Item>, pushable: seq<Item>, merkle: seq<Item>, i: nat, j: nat, capBps: nat)
    requires SlotOk(index, s) && s.chain.Some? && s.row.Some? && s.row.value.phase != Planned && s.listed
    requires SplitOf(s.row.value.plan, paid, pushable, merkle)
    requires i <= j <= |pushable| && j - i <= MAX_PUSH_ITEMS
    requires s.chain.value.payouts == paid + pushable[..i]
    requires Sum(paid) + Sum(pushable) <= PushCap(s.chain.value.total, capBps)
    ensures Allowed(index, s, Push(pushable[i..j], capBps))
    ensures !s.chain.value.finalized ==> PushAccepted(s.chain.value, pushable[i..j], capBps)
  {
    var plan, e, chunk := s.row.value.plan, s.chain.value, pushable[i..j];
    SplitAddsUp(plan, paid, pushable, merkle);
    ChunkIsNew(plan, paid, pushable, i, j);
    ChunkSum(paid, pushable, i, j);
    PlanWithinTotal(plan, e.total);
    FloorIff(e.total * capBps, BPS, e.pushed + Sum(chunk));
  }

  lemma PlanWithinTotal(plan: seq<Item>, total: nat)
    requires GoodPlan(plan, total)
    ensures Sum(plan) <= total
  {}

  lemma ChunkSum(paid: seq<Item>, pushable: seq<Item>, i: nat, j: nat)
    requires i <= j <= |pushable|
    ensures Sum(paid + pushable[..i]) + Sum(pushable[i..j]) <= Sum(paid) + Sum(pushable)
  {
    SumConcat(paid, pushable[..i]);
    SumConcat(pushable[..i], pushable[i..]);
    SumConcat(pushable[i..j], pushable[j..]);
    assert pushable == pushable[..i] + pushable[i..];
    assert pushable[i..] == pushable[i..j] + pushable[j..];
  }

  lemma ChunkIsNew(plan: seq<Item>, paid: seq<Item>, pushable: seq<Item>, i: nat, j: nat)
    requires i <= j <= |pushable| && Distinct(paid + pushable) && Within(paid + pushable, plan)
    ensures Distinct(pushable[i..j]) && Within(pushable[i..j], plan)
    ensures Wallets(pushable[i..j]) !! Wallets(paid + pushable[..i])
  {
    var all, chunk, before := paid + pushable, pushable[i..j], paid + pushable[..i];
    var n := |paid| + i;
    assert forall x :: 0 <= x < |chunk| ==> chunk[x] == all[n + x];
    assert forall y :: 0 <= y < |before| ==> before[y] == all[y];
    forall w | w in Wallets(chunk) ensures w !in Wallets(before) {
      var x :| 0 <= x < |chunk| && chunk[x].wallet == w;
      assert all[n + x].wallet == w;
    }
  }

  // ----- rows -----

  lemma AppendWallet(rows: seq<Item>, it: Item)
    ensures it.wallet in Wallets(rows + [it])
  {
    assert (rows + [it])[|rows|].wallet == it.wallet;
  }

  lemma WalletsOneMore(items: seq<Item>, i: nat)
    requires i < |items|
    ensures Wallets(items[..i + 1]) == Wallets(items[..i]) + {items[i].wallet}
  {
    assert items[..i + 1] == items[..i] + [items[i]];
    WalletsConcat(items[..i], [items[i]]);
    assert Wallets([items[i]]) == {items[i].wallet} by {
      assert [items[i]][0].wallet in Wallets([items[i]]);
    }
  }

  lemma ClaimTableIs(index: nat, entries: seq<Item>, rows: map<Key, LeafRow>)
    requires Distinct(entries) && rows.Keys == Wallets(entries)
    requires forall j :: 0 <= j < |entries| ==>
      entries[j].wallet in rows && rows[entries[j].wallet] == LeafRow(entries[j].amount, Proof(LeafDigests(EpochKey(index), entries), j))
    ensures rows == ClaimTable(index, entries)
  {
    forall w | w in rows ensures rows[w] == ClaimTable(index, entries)[w] {
      var j := Position(entries, w);
      ClaimTableFacts(index, entries, j);
    }
  }

  /** With nobody left to claim there is nothing to store. */
  lemma NothingToStore(index: nat, s: Slot)
    requires SlotOk(index, s) && s.chain.Some? && s.row.Some?
    requires Remainder(s.row.value.plan, Wallets(s.chain.value.payouts)) == []
    ensures s.leaves == ClaimTable(index, [])
  {
    assert Wallets([]) == {};
    assert ClaimTable(index, []) == map[];
  }

  lemma NextChunk(paid: seq<Item>, pushable: seq<Item>, i: nat, j: nat)
    requires i <= j <= |pushable|
    ensures paid + pushable[..i] + pushable[i..j] == paid + pushable[..j]
    ensures Within(pushable[i..j], paid + pushable[..j])
    ensures Wallets(paid + pushable[..j]) == Wallets(paid + pushable[..i]) + Wallets(pushable[i..j])
  {
    WalletsConcat(paid + pushable[..i], pushable[i..j]);
    assert pushable[..j] == pushable[..i] + pushable[i..j];
    forall x | 0 <= x < |pushable[i..j]| ensures pushable[i..j][x] in paid + pushable[..j] {
      assert pushable[i..j][x] == (paid + pushable[..j])[|paid| + i + x];
    }
  }

  // ----- closing an epoch -----

  /** The root and total the keeper computes are the ones the rules ask for, and they fit in the epoch. */
  lemma FinalIs(index: nat, s: Slot, plan: seq<Item>, total: nat, paid: seq<Item>)
    requires SlotOk(index, s) && PayingSlot(s, plan, total, paid) && s.row.value.phase == Phase.Pushed
    ensures var rest := Remainder(plan, Wallets(paid));
      && Allowed(index, s, SendFinalize(FinalMsg(RootOf(EpochKey(index), rest), Sum(rest))))
      && Sum(rest) + Sum(paid) <= total
    ensures s.chain.value.pushed == Sum(paid)
  {
    PaidPlusRemainder(plan, paid);
    PlanWithinTotal(plan, total);
  }

  /** A remainder of a good plan is sorted already and makes a tree. */
  lemma RemainderMakesTree(plan: seq<Item>, total: nat, paid: set<Key>)
    requires GoodPlan(plan, total)
    ensures var rest := Remainder(plan, paid);
      SortByWallet(rest) == rest && Distinct(rest) && FitU64(rest)
  {
    var rest := Remainder(plan, paid);
    RemainderAscends(plan, paid);
    SortedStays(rest);
    PlanWithinTotal(plan, total);
    forall i | 0 <= i < |rest| ensures rest[i].amount <= U64_MAX {
      assert rest[i] in rest;
      MemberAtMostSum(plan, rest[i]);
    }
  }

  // ----- reconciling -----

  /** Known pushes are landed pushes, each once. */
  ghost predicate KnownPushes(known: seq<Item>, landed: seq<Item>) {
    Distinct(known) && Within(known, landed)
  }

  /** Every push too old for the page of transactions read back is in the table. */
  ghost predicate OldPushesRecorded(s: Slot, landed: seq<Item>, unread: nat) {
    unread == 0 || Wallets(landed[..if unread <= |landed| then unread else |landed|]) <= Wallets(s.payouts)
  }

  /** Some push to epoch `k` can be read neither from the table nor from the page. */
  ghost predicate PushMissing(w: World, k: nat, unread: nat) {
    k < |w| && w[k].chain.Some? && !OldPushesRecorded(w[k], w[k].chain.value.payouts, unread)
  }

  /** The same pushes, and no fewer of them in the table. */
  ghost predicate PushesKept(w: World, v: World, k: nat) {
    && k < |w| && k < |v| && v[k].chain.Some? && Wallets(w[k].payouts) <= Wallets(v[k].payouts)
    && v[k].chain.value.payouts == if w[k].chain.Some? then w[k].chain.value.payouts else []
  }

  /** What is missing now was missing before. */
  lemma MissingBefore(w: World, v: World, k: nat, unread: nat)
    requires PushesKept(w, v, k) && PushMissing(v, k, unread)
    ensures PushMissing(w, k, unread)
  {}

  /** Then the page and the table together have every push. */
  lemma NothingMissing(known: set<Key>, landed: seq<Item>, unread: nat)
    requires unread <= |landed| && Wallets(landed[..unread]) <= known
    ensures Wallets(landed) <= known + Wallets(landed[unread..])
  {
    WalletsConcat(landed[..unread], landed[unread..]);
    assert landed == landed[..unread] + landed[unread..];
  }

  /** Reading every event makes the list of known pushes complete. */
  lemma AllEventsKnown(known: seq<Item>, landed: seq<Item>)
    requires KnownPushes(known, landed) && Distinct(landed) && Wallets(landed) <= Wallets(known)
    ensures Sum(known) == Sum(landed)
  {
    PaidPlusRemainder(landed, known);
    var missing := Remainder(landed, Wallets(known));
    MemberWallets(landed);
    assert forall it :: it !in missing;
    SomeMember(missing);
  }

  lemma SomeMember(items: seq<Item>)
    ensures items != [] ==> exists it :: it in items
  {
    if items != [] {
      assert items[0] in items;
    }
  }

  lemma KnowOneMore(known: seq<Item>, landed: seq<Item>, it: Item)
    requires KnownPushes(known, landed) && it in landed && it.wallet !in Wallets(known)
    ensures KnownPushes(known + [it], landed) && Wallets(known + [it]) == Wallets(known) + {it.wallet}
  {
    AppendDistinct(known, it);
  }

  // ----- the newest epoch -----

  /** Highest index with a row in `epochs` or `epoch_progress`, or -1. */
  function MaxKnown(w: World): (m: int)
    ensures -1 <= m < |w|
  {
    if w == [] then -1
    else if w[|w| - 1].listed || w[|w| - 1].row.Some? then |w| - 1
    else MaxKnown(w[..|w| - 1])
  }

  /** Every touched index has a plan, and only the last one may still be unopened. */
  lemma LastIsKnown(run: seq<World>)
    requires IsRun(run)
    ensures var w := run[|run| - 1];
      && MaxKnown(w) == |w| - 1
      && forall j :: 0 <= j < |w| - 1 ==> Closed(w[j])
  {
    RunKeeps(run, |run| - 1);
    var w := run[|run| - 1];
    forall j | 0 <= j < |w| - 1 ensures Closed(w[j]) {
      assert Linked(w[j], w[j + 1]);
    }
  }

  /** A closed epoch is the same at any later moment, except for claims. */
  lemma ClosedStays(before: seq<World>, run: seq<World>, k: nat, acc: Epoch)
    requires before != [] && before <= run && IsRun(run)
    requires k < |before[|before| - 1]| && Snapshot(before[|before| - 1][k], acc) && acc.finalized
    ensures k < |run[|run| - 1]| && Snapshot(run[|run| - 1][k], acc)
  {
    Frozen(run, |before| - 1, |run| - 1, k);
    RunKeeps(run, |before| - 1);
    RunKeeps(run, |run| - 1);
  }
}
