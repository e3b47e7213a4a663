/**
 Which allocation an epoch pays (apps/keeper/src/cycles/payouts.ts:15-16, 366-386). The header promises that a
 resumed epoch pays the allocation it was opened with, and the recompute branch that it reproduces the original
 split. Both fail in some runs; here is exactly when each of them holds.
 */
module Allocations {
  import opened Epochs
  import opened Guarantees
  import opened Items
  import opened Merkle
  import opened PayoutRules
  import opened Plans
  import opened Prelude
  import opened Runs
  import opened Shares

  // ----- every stored plan is computed from its basis -----

  ghost predicate BasesOk(s: Slot) {
    && (forall x :: 0 <= x < |s.origin.saves| ==> FromBasis(s.origin.saves[x]))
    && (s.row.Some? && s.origin.basis.Some? ==> FromBasis(Save(s.row.value.(phase := Planned), s.origin.basis.value)))
  }

  lemma ActionKeepsBases(index: nat, s: Slot, a: Action)
    requires BasesOk(s) && (a.SavePlan? || a.ReplacePlan? ==> FromBasis(a.save) && a.save.row.phase == Planned)
    ensures BasesOk(Apply(index, s, a))
  {}

  lemma StepKeepsBases(w: World, m: Move, k: nat)
    requires MoveAllowed(w, m) && k < |Step(w, m)| && (k < |w| ==> BasesOk(w[k]))
    ensures BasesOk(Step(w, m)[k])
  {
    if k == m.index {
      ActionKeepsBases(k, At(w, k), m.action);
    }
  }

  lemma {:induction false} RunKeepsBases(run: seq<World>, n: nat, k: nat)
    requires IsRun(run) && n < |run| && k < |run[n]|
    ensures BasesOk(run[n][k])
  {
    if n > 0 {
      var before := n - 1;
      RunStep(run, before);
      var m :| MoveAllowed(run[before], m) && run[n] == Step(run[before], m);
      if k < |run[before]| {
        RunKeepsBases(run, before, k);
      }
      StepKeepsBases(run[before], m, k);
    }
  }

  /** What was read for the plan whose open landed. */
  function OpenedBasis(s: Slot): Basis
    requires s.origin.landed.Some? && s.origin.landed.value < |s.origin.saves|
  {
    s.origin.saves[s.origin.landed.value].basis
  }

  /** A plan for the epoch on chain is the one it was opened with if and only if both readings give the same shares. */
  lemma AllocationByShares(run: seq<World>, n: nat, k: nat, basis: Basis)
    requires IsRun(run) && n < |run| && k < |run[n]| && run[n][k].chain.Some? && run[n][k].row.Some?
    requires var s := run[n][k]; var e := s.chain.value;
      e.startTs < e.endTs && s.row.value.plan == PlanOf(basis, e.startTs, e.endTs, e.total)
    ensures var s := run[n][k]; var e := s.chain.value;
      && s.origin.landed.Some? && s.origin.landed.value < |s.origin.saves|
      && (PaysItsAllocation(s) <==> SameShares(OpenedBasis(s), basis, e.startTs, e.endTs, e.total))
  {
    var s := run[n][k];
    var e := s.chain.value;
    SlotIsOk(run, n, k);
    RunKeepsBases(run, n, k);
    var first := s.origin.saves[s.origin.landed.value];
    assert OpenFor(first.row) == OpenOf(e) && FromBasis(first);
    SamePlanIff(first.basis, basis, e.startTs, e.endTs, e.total);
  }

  // ----- at the landing -----

  /**
   The row is the very one saved for the open that landed if and only if it was so at the landing and nothing
   has been saved since; the allocation is then the open's. If nothing has been saved since and the totals
   agreed, the allocation is the open's if and only if the plan in the row was at the landing.
   */
  lemma LandingDecides(run: seq<World>, i: nat, j: nat, k: nat)
    requires IsRun(run) && i < j < |run| && k < |run[i]| && k < |run[i + 1]|
    requires run[i][k].chain.None? && run[i + 1][k].chain.Some?
    ensures k < |run[j]| && run[j][k].origin.landed.Some?
    ensures PaysItsOpen(run[j][k]) <==>
      run[i][k].origin.current == run[j][k].origin.landed && run[j][k].origin.saves == run[i][k].origin.saves
    ensures PaysItsOpen(run[j][k]) ==> PaysItsAllocation(run[j][k])
    ensures run[j][k].origin.saves == run[i][k].origin.saves && TotalsAgree(run[i + 1][k]) ==>
      (PaysItsAllocation(run[j][k]) <==> PaysItsAllocation(run[i + 1][k]))
  {
    SlotIsOk(run, i, k);
    SlotIsOk(run, i + 1, k);
    LandingKeepsPlans(run, i, k);
    Frozen(run, i + 1, j, k);
    SlotIsOk(run, j, k);
  }

  lemma LandingKeepsPlans(run: seq<World>, i: nat, k: nat)
    requires IsRun(run) && i + 1 < |run| && k < |run[i]| && k < |run[i + 1]|
    requires run[i][k].chain.None? && run[i + 1][k].chain.Some?
    ensures run[i + 1][k].origin == run[i][k].origin.(landed := run[i + 1][k].origin.landed) && run[i + 1][k].opens == run[i][k].opens
  {
    assert Next(run[i], run[i + 1]);
    var m :| MoveAllowed(run[i], m) && run[i + 1] == Step(run[i], m);
    assert m.index == k && m.action.LandOpen?;
  }

  // ----- at first sight -----

  /** The keeper finds epoch `k` on chain for the first time in state `i`. */
  ghost predicate FoundAt(run: seq<World>, i: nat, k: nat) {
    && 0 < i < |run| && k < |run[i]| && run[i][k].origin.seen
    && (k < |run[i - 1]| ==> !run[i - 1][k].origin.seen)
  }

  /** Every epoch past 'planned' was found on chain for the first time in some state. */
  lemma {:induction false} FirstSightOf(run: seq<World>, n: nat, k: nat) returns (i: nat)
    requires IsRun(run) && n < |run| && k < |run[n]| && run[n][k].row.Some? && run[n][k].row.value.phase != Planned
    ensures i <= n && FoundAt(run, i, k)
  {
    SlotIsOk(run, n, k);
    i := FirstSeenIn(run, n, k);
  }

  lemma {:induction false} FirstSeenIn(run: seq<World>, n: nat, k: nat) returns (i: nat)
    requires IsRun(run) && n < |run| && k < |run[n]| && run[n][k].origin.seen
    ensures i <= n && FoundAt(run, i, k)
  {
    i := n;
    if k < |run[n - 1]| && run[n - 1][k].origin.seen {
      i := FirstSeenIn(run, n - 1, k);
    }
  }

  /**
   With the on-chain total in the row, it is settled for good: the epoch pays the allocation it was opened with
   if and only if the row read has that very plan.
   */
  lemma EqualTotalsDecide(run: seq<World>, i: nat, j: nat, k: nat)
    requires IsRun(run) && i <= j < |run| && FoundAt(run, i, k) && TotalsAgree(run[i][k])
    ensures k < |run[j]| && (PaysItsAllocation(run[j][k]) <==> PaysItsAllocation(run[i][k]))
  {
    SlotIsOk(run, i, k);
    Frozen(run, i, j, k);
    SlotIsOk(run, j, k);
  }

  /**
   What the row shows of it. The window on chain is enough: the epoch then pays the allocation it was opened
   with, from the very row saved for its open. With the total on chain and no plan saved twice it is also necessary.
   */
  lemma MatchingWindow(run: seq<World>, i: nat, j: nat, k: nat)
    requires IsRun(run) && i <= j < |run| && FoundAt(run, i, k) && WindowsDiffer(run[i][k].origin.saves)
    ensures k < |run[j]| && (PaysItsOpen(run[j][k]) <==> WindowMatches(run[i][k]))
    ensures WindowMatches(run[i][k]) ==> PaysItsAllocation(run[j][k])
    ensures TotalsAgree(run[i][k]) && PlansDiffer(run[i][k].origin.saves) ==>
      (PaysItsAllocation(run[j][k]) <==> WindowMatches(run[i][k]))
  {
    NotReplacedYet(run, i, k);
    SlotIsOk(run, i, k);
    WindowTells(k, run[i][k]);
    Frozen(run, i, j, k);
    SlotIsOk(run, j, k);
    if TotalsAgree(run[i][k]) {
      EqualTotalsDecide(run, i, j, k);
    }
  }

  lemma NotReplacedYet(run: seq<World>, i: nat, k: nat)
    requires IsRun(run) && FoundAt(run, i, k)
    ensures run[i][k].origin.current.Some?
  {
    var before := i - 1;
    RunStep(run, before);
    var m :| MoveAllowed(run[before], m) && run[i] == Step(run[before], m);
    if k < |run[before]| {
      SlotIsOk(run, before, k);
      FoundInRow(k, run[before][k], m.action);
    }
  }

  /** Only finding it on chain notes an epoch as seen, and its row is then one that was saved. */
  lemma FoundInRow(index: nat, s: Slot, a: Action)
    requires InOrder(s) && OriginOk(s) && Allowed(index, s, a) && !s.origin.seen && Apply(index, s, a).origin.seen
    ensures Apply(index, s, a).origin.current.Some?
  {}

  /**
   With another total in the row, the plan is computed afresh: the epoch pays the allocation it was opened with
   if and only if what is read now gives everybody the same positive share of the epoch as what was read then.
   */
  lemma OtherTotalDecides(run: seq<World>, i: nat, j: nat, k: nat)
    requires IsRun(run) && i <= j < |run| && FoundAt(run, i, k) && !TotalsAgree(run[i][k])
    requires k < |run[j]| && run[j][k].row.Some? && run[j][k].row.value.phase != Planned
    ensures var s := run[j][k];
      && s.chain.Some? && s.chain.value.startTs < s.chain.value.endTs
      && s.origin.landed.Some? && s.origin.landed.value < |s.origin.saves| && s.origin.basis.Some?
      && (PaysItsAllocation(s) <==>
            SameShares(OpenedBasis(s), s.origin.basis.value, s.chain.value.startTs, s.chain.value.endTs, s.chain.value.total))
  {
    RunKeeps(run, j);
    ReplacedBy(run, i, j, k);
    RunKeepsBases(run, j, k);
    AllocationByShares(run, j, k, run[j][k].origin.basis.value);
  }

  /**
   The case the recompute branch is meant for: the events of the window are the same, in whatever order they are
   read, and so are the exclusions and the wallets past the holding filter. The original split is then reproduced
   unless dust meets a tie for the largest average.
   */
  lemma SameEventsReproduce(run: seq<World>, i: nat, j: nat, k: nat)
    requires IsRun(run) && i <= j < |run| && FoundAt(run, i, k) && !TotalsAgree(run[i][k])
    requires k < |run[j]| && run[j][k].row.Some? && run[j][k].row.value.phase != Planned
    ensures var s := run[j][k];
      && s.chain.Some? && s.chain.value.startTs < s.chain.value.endTs
      && s.origin.landed.Some? && s.origin.landed.value < |s.origin.saves| && s.origin.basis.Some?
      && (var e, first := s.chain.value, OpenedBasis(s);
          var events := s.origin.basis.value.events;
          && s.origin.basis.value == first.(events := events) && Reorders(first.events, events)
          && TiesHarmless(EligibleFor(first, e.startTs, e.endTs), e.total)
          ==> PaysItsAllocation(s))
  {
    OtherTotalDecides(run, i, j, k);
    var s := run[j][k];
    var e, first, events := s.chain.value, OpenedBasis(s), s.origin.basis.value.events;
    if s.origin.basis.value == first.(events := events) && Reorders(first.events, events)
       && TiesHarmless(EligibleFor(first, e.startTs, e.endTs), e.total) {
      HarmlessOrder(first, events, e.startTs, e.endTs, e.total);
    }
  }

  /** Past 'planned' the totals agree, so by then the plan has been replaced. */
  lemma ReplacedBy(run: seq<World>, i: nat, j: nat, k: nat)
    requires IsRun(run) && i <= j < |run| && FoundAt(run, i, k) && !TotalsAgree(run[i][k])
    requires k < |run[j]| && run[j][k].row.Some? && run[j][k].row.value.phase != Planned
    ensures run[j][k].origin.current.None?
  {
    NotReplacedYet(run, i, k);
    SlotIsOk(run, i, k);
    SlotIsOk(run, j, k);
    Frozen(run, i, j, k);
  }

  // ----- readings with a known plan -----

  /** If only wallet `w` passes, it gets everything. */
  lemma OnlyHolder(w: Key, start: nat, total: nat)
    requires (w == 1 || w == 2) && total > 0
    ensures PlanOf(TwoHolders({w}), start, start + 10, total) == [Item(w, total)]
  {
    var items := [Item(1, 1), Item(2, 1)];
    HolderAverages({w}, start);
    assert items[1..] == [Item(2, 1)] && [Item(2, 1)][1..] == [];
    assert Keep([Item(2, 1)], {w}) == if w == 2 then [Item(2, 1)] else [];
    var one, all := [Item(w, 1)], [Item(w, total)];
    assert Keep(items, {w}) == one;
    SingleItem(one[0], 0);
    SingleItem(all[0], 1);
    assert Floors(one, total, 1) == all;
    assert SharesOf(one, total) == all;
  }

  lemma SingleItem(it: Item, min: int)
    requires it.amount >= min
    ensures Sum([it]) == it.amount && AtLeast([it], min) == [it] && SortByWallet([it]) == [it]
  {
    assert [it][1..] == [];
    assert SortByWallet([]) == [];
  }

  lemma NobodyPasses(start: nat, total: nat)
    ensures PlanOf(TwoHolders({}), start, start + 10, total) == []
  {
    var items := [Item(1, 1), Item(2, 1)];
    HolderAverages({}, start);
    assert items[1..] == [Item(2, 1)] && [Item(2, 1)][1..] == [];
    assert Keep(items, {}) == [];
  }

  // ----- runs -----

  /** One more move at epoch 0. */
  lemma Follow(run: seq<World>, s: Slot, a: Action) returns (longer: seq<World>)
    requires IsRun(run) && run[|run| - 1] == [s] && Allowed(0, s, a)
    requires a.SavePlan? || a.ReplacePlan? ==> FromBasis(a.save)
    ensures IsRun(longer) && longer[|longer| - 1] == [Apply(0, s, a)]
  {
    var m := Move(0, a);
    assert Step([s], m) == [Apply(0, s, a)];
    Extend(run, m);
    longer := run + [Step([s], m)];
  }

  lemma FirstOpenSent(first: Save) returns (run: seq<World>, s: Slot)
    requires SavedWell(first) && FromBasis(first)
    ensures IsRun(run) && run[|run| - 1] == [s]
    ensures s == EMPTY.(opens := {Sent(OpenFor(first.row), 0)}, row := Some(first.row),
                        origin := Origin([first], Some(0), Some(first.basis), None, false))
  {
    var sent := Sent(OpenFor(first.row), 0);
    var empty: World := [];
    assert IsRun([empty]);
    Extend([empty], Move(0, SavePlan(first)));
    s := EMPTY.(row := Some(first.row), origin := Origin([first], Some(0), Some(first.basis), None, false));
    assert [] + [first] == [first] && Apply(0, EMPTY, SavePlan(first)) == s;
    assert Step(empty, Move(0, SavePlan(first))) == [s];
    run := [empty] + [[s]];
    run := Follow(run, s, SendOpen(sent));
    s := Apply(0, s, SendOpen(sent));
    assert {} + {sent} == {sent};
  }

  /** The pool's first plan is saved and its `open_epoch` sent; its landing is missed, and the next cycle saves a second plan. */
  lemma MissedLanding(first: Save, second: Save) returns (run: seq<World>, s: Slot)
    requires SavedWell(first) && SavedWell(second) && FromBasis(first) && FromBasis(second)
    ensures IsRun(run) && run[|run| - 1] == [s]
    ensures s == EMPTY.(chain := Some(NewEpoch(OpenFor(first.row))), opens := {Sent(OpenFor(first.row), 0)}, row := Some(second.row),
                        origin := Origin([first, second], Some(1), Some(second.basis), Some(0), true))
  {
    var sent := Sent(OpenFor(first.row), 0);
    run, s := FirstOpenSent(first);
    run := Follow(run, s, SavePlan(second));
    s := Apply(0, s, SavePlan(second));
    assert [first] + [second] == [first, second];
    run := Follow(run, s, LandOpen(sent));
    s := Apply(0, s, LandOpen(sent));
    run := Follow(run, s, SeeOpen);
    s := Apply(0, s, SeeOpen);
  }

  /** Pushing a one-entry plan. */
  lemma PushWhole(before: seq<World>, s: Slot, items: seq<Item>) returns (run: seq<World>, t: Slot)
    requires IsRun(before) && before[|before| - 1] == [s] && s.row.Some? && s.row.value.phase == Opened && s.chain.Some?
    requires items == s.row.value.plan && |items| == 1 && Sum(items) == s.chain.value.total
    requires s.chain.value.payouts == [] && s.chain.value.pushed == 0 && !s.chain.value.finalized && s.listed
    ensures IsRun(run) && run[|run| - 1] == [t]
    ensures t == s.(chain := Some(s.chain.value.(pushed := Sum(items), payouts := items)))
    ensures Remainder(items, Wallets(items)) == []
  {
    assert Wallets([]) == {} && [] + items == items;
    run := Follow(before, s, Push(items, BPS));
    t := Apply(0, s, Push(items, BPS));
    assert items[0].wallet in Wallets(items);
  }

  /** Closing an epoch with nothing left to claim. */
  lemma CloseEmpty(before: seq<World>, s: Slot) returns (run: seq<World>, t: Slot)
    requires IsRun(before) && before[|before| - 1] == [s] && s.origin.seen && s.listed
    requires s.row.Some? && s.row.value.phase == Opened && s.chain.Some? && s.row.value.total == s.chain.value.total
    requires !s.chain.value.finalized && s.chain.value.pushed <= s.chain.value.total
    requires Remainder(s.row.value.plan, Wallets(s.chain.value.payouts)) == []
    ensures IsRun(run) && run[|run| - 1] == [t]
    ensures t.origin == s.origin && t.row == Some(s.row.value.(phase := Pushed))
    ensures t.chain == Some(s.chain.value.(finalized := true, root := ZERO_ROOT, merkleTotal := 0))
  {
    var final := FinalMsg(ZERO_ROOT, 0);
    t := s;
    run := Follow(before, t, SetPhase(Pushed));
    t := Apply(0, t, SetPhase(Pushed));
    run := Follow(run, t, SendFinalize(final));
    t := Apply(0, t, SendFinalize(final));
    run := Follow(run, t, LandFinalize(final));
    t := Apply(0, t, LandFinalize(final));
  }

  /** A saved plan that gives one of the two holders everything, over ten seconds. */
  function OneGetsAll(w: Key, start: nat, total: nat): Save {
    Save(PlanRow(Planned, start, start + 10, total, [Item(w, total)]), TwoHolders({w}))
  }

  lemma OneGetsAllSaved(w: Key, start: nat, total: nat)
    requires (w == 1 || w == 2) && 0 < total <= U64_MAX
    ensures SavedWell(OneGetsAll(w, start, total)) && FromBasis(OneGetsAll(w, start, total))
  {
    OnlyHolder(w, start, total);
    assert Sum([Item(w, total)]) == total;
  }

  lemma MarkOpen(before: seq<World>, s: Slot) returns (run: seq<World>, t: Slot)
    requires IsRun(before) && before[|before| - 1] == [s] && s.row.Some? && s.row.value.phase == Planned && s.origin.seen && TotalsAgree(s)
    ensures IsRun(run) && run[|run| - 1] == [t] && t == s.(row := Some(s.row.value.(phase := Opened)), listed := true)
  {
    run := Follow(before, s, SetPhase(Opened));
    t := Apply(0, s, SetPhase(Opened));
    run := Follow(run, t, InsertEpoch);
    t := Apply(0, t, InsertEpoch);
  }

  /** A plan computed when nobody passes. */
  function NobodyGetsAnything(start: nat, total: nat): Save {
    Save(PlanRow(Planned, start, start + 10, total, []), TwoHolders({}))
  }

  lemma NobodyGetsAnythingSaved(start: nat, total: nat)
    requires total <= U64_MAX
    ensures SavedWell(NobodyGetsAnything(start, total)) && FromBasis(NobodyGetsAnything(start, total))
  {
    NobodyPasses(start, total);
  }

  /** Marks the epoch opened, pushes its one-entry plan and closes it. */
  lemma PayAndClose(before: seq<World>, s: Slot, items: seq<Item>) returns (run: seq<World>, t: Slot)
    requires IsRun(before) && before[|before| - 1] == [s] && s.row.Some? && s.row.value.phase == Planned && s.origin.seen
    requires items == s.row.value.plan && |items| == 1 && TotalsAgree(s) && Sum(items) == s.chain.value.total
    requires s.chain.value.payouts == [] && s.chain.value.pushed == 0 && !s.chain.value.finalized
    ensures IsRun(run) && run[|run| - 1] == [t] && Closed(t) && t.origin == s.origin
    ensures t.row == Some(s.row.value.(phase := Pushed)) && OpenOf(t.chain.value) == OpenOf(s.chain.value)
    ensures t.chain.value.payouts == items && t.chain.value.merkleTotal == 0
  {
    run, t := MarkOpen(before, s);
    run, t := PushWhole(run, t, items);
    run, t := CloseEmpty(run, t);
  }

  /**
   The header's promise fails: the landing of the first open is missed, a cycle later a plan is saved for the
   next window and the same vault balance, and the keeper dies before it sends that. The totals agree, so the
   epoch of the first window is paid, in full, by the plan for the second.
   */
  lemma LateOpenMeetsLaterPlan() returns (run: seq<World>, s: Slot)
    ensures IsRun(run) && run[|run| - 1] == [s] && Closed(s) && !PaysItsAllocation(s)
    ensures s.chain.value.startTs == 0 && s.chain.value.endTs == 10 && s.chain.value.total == 10
    ensures s.origin.landed == Some(0) && WindowsDiffer(s.origin.saves)
    ensures s.origin.saves == [OneGetsAll(1, 0, 10), OneGetsAll(2, 10, 10)]
    ensures s.chain.value.payouts == [Item(2, 10)] && s.chain.value.merkleTotal == 0
  {
    var first, second := OneGetsAll(1, 0, 10), OneGetsAll(2, 10, 10);
    OneGetsAllSaved(1, 0, 10);
    OneGetsAllSaved(2, 10, 10);
    run, s := MissedLanding(first, second);
    assert Sum([Item(2, 10)]) == 10;
    run, s := PayAndClose(run, s, [Item(2, 10)]);
  }

  /** The first open lands after all, its plan has been replaced by one for another total, and a third is computed afresh. */
  lemma Recomputed(afresh: Save) returns (run: seq<World>, s: Slot)
    requires SavedWell(afresh) && FromBasis(afresh) && OpenFor(afresh.row) == OpenMsg(0, 10, 10)
    ensures IsRun(run) && run[|run| - 1] == [s]
    ensures s == EMPTY.(chain := Some(NewEpoch(OpenMsg(0, 10, 10))), opens := {Sent(OpenMsg(0, 10, 10), 0)}, row := Some(afresh.row),
                        origin := Origin([OneGetsAll(1, 0, 10), OneGetsAll(1, 10, 15)], None, Some(afresh.basis), Some(0), true))
  {
    OneGetsAllSaved(1, 0, 10);
    OneGetsAllSaved(1, 10, 15);
    run, s := MissedLanding(OneGetsAll(1, 0, 10), OneGetsAll(1, 10, 15));
    run := Follow(run, s, ReplacePlan(afresh));
    s := Apply(0, s, ReplacePlan(afresh));
  }

  /**
   Recomputing over the closed window reproduces the split if the holding filter still lets the same wallets
   through, and does not if the price has moved others past it, although not a single event came late.
   */
  lemma FilterDecidesRecompute(w: Key) returns (run: seq<World>, s: Slot)
    requires w == 1 || w == 2
    ensures IsRun(run) && run[|run| - 1] == [s] && Closed(s) && s.origin.landed == Some(0) && s.origin.basis.Some? && |s.origin.saves| == 2
    ensures s.origin.basis.value == s.origin.saves[0].basis.(heldEnough := {w})
    ensures s.origin.saves[0].row.plan == [Item(1, 10)] && s.chain.value.payouts == [Item(w, 10)]
    ensures PaysItsAllocation(s) <==> w == 1
  {
    var afresh := OneGetsAll(w, 0, 10);
    OneGetsAllSaved(w, 0, 10);
    run, s := Recomputed(afresh);
    assert Sum([Item(w, 10)]) == 10;
    run, s := PayAndClose(run, s, [Item(w, 10)]);
  }

  /** An epoch can be closed with its whole total paid to nobody: the plan computed afresh is empty. */
  lemma EmptyPlanPaysNobody() returns (run: seq<World>, s: Slot)
    ensures IsRun(run) && run[|run| - 1] == [s] && Closed(s)
    ensures s.chain.value.total == 10 && s.chain.value.pushed + s.chain.value.merkleTotal == 0
    ensures s.row.Some? && s.row.value.plan == []
  {
    NobodyGetsAnythingSaved(0, 10);
    run, s := Recomputed(NobodyGetsAnything(0, 10));
    run, s := CloseUnpaid(run, s);
  }

  /** Marks the epoch opened and closes it with nothing to pay. */
  lemma CloseUnpaid(before: seq<World>, s: Slot) returns (run: seq<World>, t: Slot)
    requires IsRun(before) && before[|before| - 1] == [s] && s.row.Some? && s.row.value.phase == Planned && s.origin.seen
    requires s.row.value.plan == [] && TotalsAgree(s)
    requires s.chain.value.payouts == [] && s.chain.value.pushed == 0 && !s.chain.value.finalized
    ensures IsRun(run) && run[|run| - 1] == [t] && Closed(t) && t.row == Some(s.row.value.(phase := Pushed))
    ensures t.chain.value.total == s.chain.value.total && t.chain.value.pushed == t.chain.value.merkleTotal == 0
  {
    run, t := MarkOpen(before, s);
    run, t := CloseEmpty(run, t);
  }
}
