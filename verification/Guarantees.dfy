/**
 What the payout protocol promises, for every state of every run: keepers dying anywhere, resumes,
 repairs, and `open_epoch` / `finalize_epoch` transactions landing late.
 */
module Guarantees {
  import opened Epochs
  import opened Items
  import opened Merkle
  import opened PayoutRules
  import opened Runs
  import opened Twab

  /** Plan and on-chain account of an epoch that has both. */
  ghost predicate Has(s: Slot, plan: seq<Item>, e: Epoch) {
    s.row.Some? && s.chain.Some? && plan == s.row.value.plan && e == s.chain.value
  }

  lemma SlotIsOk(run: seq<World>, n: nat, k: nat)
    requires IsRun(run) && n < |run| && k < |run[n]|
    ensures SlotOk(k, run[n][k]) && run[n][k].row.Some?
  {
    RunKeeps(run, n);
  }

  /**
   Exactly once: when an epoch is closed, every plan entry was either pushed once or is one leaf of the
   claim tree, never both and never with another amount, and the root on chain is that tree's.
   */
  lemma ExactlyOnce(run: seq<World>, n: nat, k: nat, plan: seq<Item>, e: Epoch, it: Item)
    requires IsRun(run) && n < |run| && k < |run[n]| && Has(run[n][k], plan, e) && e.finalized && it in plan
    ensures var rest := Remainder(plan, Wallets(e.payouts));
      && multiset(e.payouts)[it] + multiset(rest)[it] == 1
      && (it.wallet in Wallets(e.payouts) <==> it in e.payouts)
      && e.root == RootOf(EpochKey(k), rest) && e.merkleTotal == Sum(rest)
  {
    SlotIsOk(run, n, k);
    var rest := Remainder(plan, Wallets(e.payouts));
    RemainderAscends(plan, Wallets(e.payouts));
    if it.wallet in Wallets(e.payouts) {
      SamePaidSameAmounts(e.payouts, plan, it);
      OccursOnce(e.payouts, it);
      assert it !in rest;
    } else {
      OccursOnce(rest, it);
      MemberWallets(e.payouts);
    }
  }

  /** Every positive share is pushed once or is one leaf of the tree whose root is on chain. */
  ghost predicate PaysOnce(k: nat, s: Slot, shares: seq<Item>) {
    Closed(s) && s.row.Some? &&
    var e := s.chain.value; var rest := Remainder(s.row.value.plan, Wallets(e.payouts));
    && e.root == RootOf(EpochKey(k), rest)
    && forall it: Item :: it.amount > 0 && it in shares ==> multiset(e.payouts)[it] + multiset(rest)[it] == 1
  }

  /** From shares to payments: when the plan lists the positive shares, everybody is paid their share exactly once. */
  lemma SharesPaidOnce(run: seq<World>, n: nat, k: nat, shares: seq<Item>)
    requires IsRun(run) && n < |run| && k < |run[n]| && Closed(run[n][k]) && run[n][k].row.Some?
    requires forall it: Item :: it.amount > 0 && it in shares ==> it in run[n][k].row.value.plan
    ensures PaysOnce(k, run[n][k], shares)
  {
    var plan, e := run[n][k].row.value.plan, run[n][k].chain.value;
    SlotIsOk(run, n, k);
    forall it: Item | it.amount > 0 && it in shares
      ensures multiset(e.payouts)[it] + multiset(Remainder(plan, Wallets(e.payouts)))[it] == 1
    {
      ExactlyOnce(run, n, k, plan, e, it);
    }
  }

  /** Conservation: pushes and leaves add up to the plan, and to the whole epoch exactly when the plan is not empty. */
  lemma ClosedEpochAddsUp(run: seq<World>, n: nat, k: nat, plan: seq<Item>, e: Epoch)
    requires IsRun(run) && n < |run| && k < |run[n]| && Has(run[n][k], plan, e) && e.finalized
    ensures e.pushed + e.merkleTotal == Sum(plan)
    ensures e.pushed + e.merkleTotal == e.total <==> plan != [] || e.total == 0
  {
    SlotIsOk(run, n, k);
    PaidPlusRemainder(plan, e.payouts);
  }

  /**
   No wallet is ever paid twice, by push or by claim, nor anything that is not its plan entry; and what
   was paid out never exceeds the epoch. In every state, closed or not.
   */
  lemma NeverPaidTwice(run: seq<World>, n: nat, k: nat, plan: seq<Item>, e: Epoch)
    requires IsRun(run) && n < |run| && k < |run[n]| && Has(run[n][k], plan, e)
    ensures Distinct(e.payouts + e.claims) && Within(e.payouts + e.claims, plan)
    ensures e.pushed == Sum(e.payouts) && e.claimed == Sum(e.claims)
    ensures e.pushed + e.claimed <= e.total
  {
    SlotIsOk(run, n, k);
    var all := e.payouts + e.claims;
    forall i, j | 0 <= i < j < |all| ensures all[i].wallet != all[j].wallet {
      if i < |e.payouts| <= j {
        assert e.claims[j - |e.payouts|] in Remainder(plan, Wallets(e.payouts));
        assert all[i].wallet in Wallets(e.payouts);
      }
    }
    forall i | 0 <= i < |all| ensures all[i] in plan {
      if i >= |e.payouts| {
        assert e.claims[i - |e.payouts|] in Remainder(plan, Wallets(e.payouts));
      }
    }
    PaidPlusRemainder(plan, all);
    SumConcat(e.payouts, e.claims);
    if plan == [] {
      WithinFacts(all, plan);
    }
  }

  /**
   Who can claim: exactly the plan entries that were not pushed and have not been claimed, each with its
   own amount. (Trees of up to 2^32 entries; the program refuses longer proofs.)
   */
  lemma ClaimableIff(run: seq<World>, n: nat, k: nat, plan: seq<Item>, e: Epoch, it: Item)
    requires IsRun(run) && n < |run| && k < |run[n]| && Has(run[n][k], plan, e) && e.finalized && |plan| <= Pow2(32)
    ensures (exists proof :: ClaimAccepted(k, e, it, proof)) <==>
      (it in plan && it.wallet !in Wallets(e.payouts) && it.wallet !in Wallets(e.claims))
  {
    SlotIsOk(run, n, k);
    var rest := Remainder(plan, Wallets(e.payouts));
    if proof :| ClaimAccepted(k, e, it, proof) {
      ClaimIsEntry(EpochKey(k), rest, EpochKey(k), it.wallet, it.amount, proof);
    }
    if it in rest && it.wallet !in Wallets(e.claims) {
      RemainderNoLonger(plan, Wallets(e.payouts));
      var i :| 0 <= i < |rest| && rest[i] == it;
      EntryCanClaim(EpochKey(k), rest, i);
      assert ClaimAccepted(k, e, it, Proof(LeafDigests(EpochKey(k), rest), i));
    }
  }

  lemma {:induction false} RemainderNoLonger(plan: seq<Item>, paid: set<Key>)
    ensures |Remainder(plan, paid)| <= |plan|
  {
    if plan != [] {
      RemainderNoLonger(plan[1..], paid);
    }
  }

  /**
   Stored leaves: every row of merkle_leaves, written by the paying cycle or by a repair, proves its entry
   against the root on chain; and an epoch marked finalized has a row for everybody who may claim.
   */
  lemma StoredLeavesVerify(run: seq<World>, n: nat, k: nat, w: Key)
    requires IsRun(run) && n < |run| && k < |run[n]|
    ensures var s := run[n][k];
      w in s.leaves ==>
        && Closed(s) && s.row.Some? && Item(w, s.leaves[w].amount) in s.row.value.plan && w !in Wallets(s.chain.value.payouts)
        && Fold(LeafDigest(EpochKey(k), w, s.leaves[w].amount), s.leaves[w].proof) == s.chain.value.root
    ensures var s := run[n][k];
      s.row.Some? && s.row.value.phase == Finalized ==>
        Closed(s) && s.leaves.Keys == Wallets(Remainder(s.row.value.plan, Wallets(s.chain.value.payouts)))
  {
    SlotIsOk(run, n, k);
    var s := run[n][k];
    if w in s.leaves {
      var rest := Remainder(s.row.value.plan, Wallets(s.chain.value.payouts));
      var i := Position(rest, w);
      assert rest[i] in rest;
      EntryCanClaim(EpochKey(k), rest, i);
    }
  }

  /**
   Recorded payouts: in every state the table holds only pushes that landed, each once; for an epoch marked
   finalized it holds all of them, and its sum is the amount pushed on chain.
   */
  lemma TableMatchesChain(run: seq<World>, n: nat, k: nat, plan: seq<Item>, e: Epoch)
    requires IsRun(run) && n < |run| && k < |run[n]| && Has(run[n][k], plan, e)
    ensures Distinct(run[n][k].payouts) && Within(run[n][k].payouts, e.payouts)
    ensures run[n][k].row.value.phase == Finalized ==>
      && (forall it :: it in run[n][k].payouts <==> it in e.payouts)
      && Sum(run[n][k].payouts) == e.pushed
  {
    SlotIsOk(run, n, k);
    var rows := run[n][k].payouts;
    if run[n][k].row.value.phase == Finalized {
      AllEventsKnown(rows, e.payouts);
      MemberWallets(e.payouts);
      forall it | it in e.payouts ensures it in rows {
        SamePaidSameAmounts(rows, e.payouts, it);
      }
    }
  }

  /** Once a plan has left 'planned', its stored total is the total on chain. */
  lemma StoredTotalIsOnChain(run: seq<World>, n: nat, k: nat)
    requires IsRun(run) && n < |run| && k < |run[n]| && run[n][k].row.Some? && run[n][k].row.value.phase != Planned
    ensures run[n][k].chain.Some? && run[n][k].row.value.total == run[n][k].chain.value.total
  {
    SlotIsOk(run, n, k);
  }

  /** Every push and every claim of an epoch is still an entry of the plan stored at any later time. */
  lemma PushesMatchLaterPlan(run: seq<World>, i: nat, j: nat, k: nat, plan: seq<Item>, e: Epoch)
    requires IsRun(run) && i <= j < |run| && k < |run[i]| && Has(run[i][k], plan, e) && (e.payouts != [] || e.finalized)
    ensures k < |run[j]| && run[j][k].row.Some? && run[j][k].row.value.plan == plan
    ensures Within(e.payouts + e.claims, run[j][k].row.value.plan)
  {
    SlotIsOk(run, i, k);
    Frozen(run, i, j, k);
    NeverPaidTwice(run, i, k, plan, e);
  }

  // ----- time -----

  /** Consecutive epochs on chain tile time: no second is counted twice or left out. */
  lemma WindowsTile(run: seq<World>, n: nat, k: nat)
    requires IsRun(run) && n < |run| && k + 1 < |run[n]| && run[n][k + 1].chain.Some?
    ensures run[n][k].chain.Some?
    ensures run[n][k].chain.value.startTs < run[n][k].chain.value.endTs == run[n][k + 1].chain.value.startTs
  {
    RunKeeps(run, n);
    assert Linked(run[n][k + 1 - 1], run[n][k + 1]);
  }

  /** Weight of `events` in epoch 0, plus epoch 1, and so on up to epoch `k`. */
  function EpochWeights(w: World, k: nat, events: seq<Event>): int
    requires k < |w| && forall j :: 0 <= j <= k ==> w[j].chain.Some?
  {
    Integral(events, w[k].chain.value.startTs, w[k].chain.value.endTs) + if k == 0 then 0 else EpochWeights(w, k - 1, events)
  }

  /** A wallet's weights over all epochs add up to its weight over the whole time, first start to last end. */
  lemma {:induction false} EpochWeightsAddUp(run: seq<World>, n: nat, k: nat, events: seq<Event>)
    requires IsRun(run) && n < |run| && k < |run[n]| && forall j :: 0 <= j <= k ==> run[n][j].chain.Some?
    ensures run[n][0].chain.value.startTs < run[n][k].chain.value.endTs
    ensures EpochWeights(run[n], k, events) == Integral(events, run[n][0].chain.value.startTs, run[n][k].chain.value.endTs)
  {
    RunKeeps(run, n);
    if k > 0 {
      EpochWeightsAddUp(run, n, k - 1, events);
      WindowsTile(run, n, k - 1);
      var w := run[n];
      IntegralComposes(events, w[0].chain.value.startTs, w[k].chain.value.startTs, w[k].chain.value.endTs);
    }
  }
}
