/**
 What the distributor program and the tables guarantee on their own (apps/keeper/src/cycles/payouts.ts:23-27,
 programs/distributor/src/state.rs, apps/keeper/src/db.ts): whoever sends whatever, in any order, with none of
 the keeper's discipline.
 */
module Program {
  import opened Arith
  import opened Epochs
  import opened Items
  import opened Merkle
  import opened Prelude

  /** Transactions and statements one after another. */
  function ApplyAll(index: nat, s: Slot, actions: seq<Action>): Slot {
    if actions == [] then s else Apply(index, ApplyAll(index, s, actions[..|actions| - 1]), actions[|actions| - 1])
  }

  function Pushes(actions: seq<Action>): nat {
    if actions == [] then 0 else Pushes(actions[..|actions| - 1]) + if actions[|actions| - 1].Push? then 1 else 0
  }

  /** The program was never configured with a push cap above `capBps`. */
  ghost predicate CapAtMost(actions: seq<Action>, capBps: nat) {
    forall i :: 0 <= i < |actions| && actions[i].Push? ==> actions[i].capBps <= capBps
  }

  /** Some proof of at most 32 nodes leads from the claim to the root. */
  ghost predicate Proven(index: nat, e: Epoch, it: Item) {
    exists proof: seq<Digest> :: |proof| <= 32 && Fold(LeafDigest(EpochKey(index), it.wallet, it.amount), proof) == e.root
  }

  ghost predicate EpochSafe(index: nat, e: Epoch, pushes: nat, capBps: nat) {
    && e.pushed == Sum(e.payouts) && e.claimed == Sum(e.claims)
    && e.pushed + e.merkleTotal <= e.total
    && e.pushed * 10_000 <= e.total * capBps
    && |e.payouts| <= 12 * pushes
    && Distinct(e.claims)
    && (!e.finalized ==> e.claims == [] && e.root == ZERO_ROOT && e.merkleTotal == 0)
    && forall i :: 0 <= i < |e.claims| ==> Proven(index, e, e.claims[i])
  }

  lemma PushIsSafe(index: nat, e: Epoch, items: seq<Item>, cap: nat, pushes: nat, capBps: nat)
    requires EpochSafe(index, e, pushes, capBps) && PushAccepted(e, items, cap) && cap <= capBps
    ensures EpochSafe(index, e.(pushed := e.pushed + Sum(items), payouts := e.payouts + items), pushes + 1, capBps)
  {
    SumConcat(e.payouts, items);
    MulLe(e.total, cap, capBps);
  }

  lemma ClaimIsSafe(index: nat, e: Epoch, it: Item, proof: seq<Digest>, pushes: nat, capBps: nat)
    requires EpochSafe(index, e, pushes, capBps) && ClaimAccepted(index, e, it, proof)
    ensures EpochSafe(index, e.(claimed := e.claimed + it.amount, claims := e.claims + [it]), pushes, capBps)
  {
    var f := e.(claimed := e.claimed + it.amount, claims := e.claims + [it]);
    AppendDistinct(e.claims, it);
    forall i | 0 <= i < |f.claims| ensures Proven(index, f, f.claims[i]) {
      if i < |e.claims| {
        assert Proven(index, e, e.claims[i]);
        var p: seq<Digest> :| |p| <= 32 && Fold(LeafDigest(EpochKey(index), e.claims[i].wallet, e.claims[i].amount), p) == e.root;
      }
    }
  }

  lemma FinalizeIsSafe(index: nat, e: Epoch, f: FinalMsg, pushes: nat, capBps: nat)
    requires EpochSafe(index, e, pushes, capBps) && FinalizeAccepted(e, f)
    ensures EpochSafe(index, e.(finalized := true, root := f.root, merkleTotal := f.merkleTotal), pushes, capBps)
  {}

  /**
   Whatever is sent to the program: an epoch never pays out or promises more than its total, nor pushes more than
   the cap; it makes at most 12 pushes per transaction and none once it is closed; nobody claims twice, and nothing
   is claimed before it is closed or without a proof against its root.
   */
  lemma {:induction false} WhateverIsSent(index: nat, actions: seq<Action>, capBps: nat)
    requires CapAtMost(actions, capBps)
    ensures var s := ApplyAll(index, EMPTY, actions);
      && (s.chain.Some? ==> EpochSafe(index, s.chain.value, Pushes(actions), capBps))
      && Distinct(s.payouts)
  {
    if actions != [] {
      var front, last := actions[..|actions| - 1], actions[|actions| - 1];
      WhateverIsSent(index, front, capBps);
      OneMoreAction(index, ApplyAll(index, EMPTY, front), last, Pushes(front), capBps);
    }
  }

  lemma OneMoreAction(index: nat, s: Slot, a: Action, pushes: nat, capBps: nat)
    requires (s.chain.Some? ==> EpochSafe(index, s.chain.value, pushes, capBps)) && Distinct(s.payouts)
    requires a.Push? ==> a.capBps <= capBps
    ensures var t := Apply(index, s, a);
      (t.chain.Some? ==> EpochSafe(index, t.chain.value, pushes + if a.Push? then 1 else 0, capBps)) && Distinct(t.payouts)
  {
    match a
    case Push(items, cap) =>
      if s.chain.Some? && PushAccepted(s.chain.value, items, cap) {
        PushIsSafe(index, s.chain.value, items, cap, pushes, capBps);
      }
    case Claim(it, proof) =>
      if s.chain.Some? && ClaimAccepted(index, s.chain.value, it, proof) {
        ClaimIsSafe(index, s.chain.value, it, proof, pushes, capBps);
      }
    case LandFinalize(f) =>
      if s.chain.Some? && FinalizeAccepted(s.chain.value, f) {
        FinalizeIsSafe(index, s.chain.value, f, pushes, capBps);
      }
    case RecordPayout(it) =>
      if it.wallet !in Wallets(s.payouts) {
        AppendDistinct(s.payouts, it);
      }
    case _ =>
  }

  /** The window and total an epoch was opened with never change, and once it is closed nothing about its payouts does. */
  lemma {:induction false} ClosedForGood(index: nat, s: Slot, actions: seq<Action>)
    requires s.chain.Some?
    ensures var t := ApplyAll(index, s, actions); t.chain.Some? && EpochEvolves(s.chain.value, t.chain.value)
  {
    if actions != [] {
      var front := actions[..|actions| - 1];
      ClosedForGood(index, s, front);
      ActionKeepsChain(index, ApplyAll(index, s, front), actions[|actions| - 1]);
    }
  }

  /** A plan past 'planned' survives every upsert: only a change of phase touches its row, and that leaves the plan alone. */
  lemma {:induction false} PlanPastPlanned(index: nat, s: Slot, actions: seq<Action>)
    requires s.row.Some? && s.row.value.phase != Planned
    requires forall i :: 0 <= i < |actions| && actions[i].SetPhase? ==> actions[i].phase != Planned
    ensures var t := ApplyAll(index, s, actions);
      t.row.Some? && t.row.value.phase != Planned && t.row.value.(phase := s.row.value.phase) == s.row.value
  {
    if actions != [] {
      PlanPastPlanned(index, s, actions[..|actions| - 1]);
    }
  }

  /** Before that, every upsert replaces it. */
  lemma PlannedIsReplaced(index: nat, s: Slot, save: Save)
    requires s.row.Some? ==> s.row.value.phase == Planned
    ensures Apply(index, s, SavePlan(save)).row == Some(save.row) == Apply(index, s, ReplacePlan(save)).row
  {}
}
