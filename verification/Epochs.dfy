/**
 One pool's payout epochs as a state machine: the on-chain `Epoch` account of every index, the keeper's
 transactions still in flight, and the table rows keyed by that index.

 `Apply` gives the effect of every transaction and SQL statement, guards and conflict clauses included.
 `Allowed` says when the keeper may make each one; module `Keeper` proves that the code keeps to it.
 Everything below is then true of every run, wherever the keeper dies and however late an `open_epoch`
 or a `finalize_epoch` lands.
 */
module Epochs {
  import opened Items
  import opened Merkle
  import opened Prelude
  import Shares

  const BPS: nat := 10_000
  const MAX_PUSH_ITEMS: nat := 12
  const MAX_PROOF_LEN: nat := 32

  /** The on-chain account, with the `Payout` events (kind 0 and kind 1) its transactions emitted. */
  datatype Epoch = Epoch(
    startTs: int, endTs: int, total: nat,
    pushed: nat, payouts: seq<Item>,
    finalized: bool, root: Digest, merkleTotal: nat,
    claimed: nat, claims: seq<Item>)

  datatype OpenMsg = OpenMsg(startTs: int, endTs: int, total: nat)

  /** An `open_epoch` transaction, with the number of the saved plan it was sent for. */
  datatype Sent = Sent(open: OpenMsg, save: nat)

  datatype FinalMsg = FinalMsg(root: Digest, merkleTotal: nat)

  datatype Phase = Planned | Opened | Pushed | Finalized

  /** A row of `epoch_progress`. */
  datatype PlanRow = PlanRow(phase: Phase, startTs: int, endTs: int, total: nat, plan: seq<Item>)

  /** A row of `merkle_leaves`. */
  datatype LeafRow = LeafRow(amount: nat, proof: seq<Digest>)

  /** A plan as it was saved, with what it was computed from. */
  datatype Save = Save(row: PlanRow, basis: Shares.Basis)

  /** Where the stored plan comes from. History only: nothing the code reads. */
  datatype Origin = Origin(
    saves: seq<Save>,             // plans saved before an open_epoch, in order
    current: Option<nat>,         // the one in the row; none after a plan was computed afresh for the epoch on chain
    basis: Option<Shares.Basis>,  // what the plan in the row was computed from
    landed: Option<nat>,          // the one whose open_epoch landed
    seen: bool)                   // the keeper has found the epoch on chain

  /** Everything keyed by one epoch index. */
  datatype Slot = Slot(
    chain: Option<Epoch>,
    opens: set<Sent>,             // open_epoch transactions sent so far; any of them may still land
    finals: set<FinalMsg>,        // finalize_epoch transactions sent so far
    row: Option<PlanRow>,         // epoch_progress
    payouts: seq<Item>,           // payouts with kind = 0
    listed: bool,                 // epochs has a row
    leaves: map<Key, LeafRow>,    // merkle_leaves by wallet
    origin: Origin)

  const EMPTY := Slot(None, {}, {}, None, [], false, map[], Origin([], None, None, None, false))

  /** What `open_epoch` is sent for a plan. */
  function OpenFor(r: PlanRow): OpenMsg {
    OpenMsg(r.startTs, r.endTs, r.total)
  }

  function OpenOf(e: Epoch): OpenMsg {
    OpenMsg(e.startTs, e.endTs, e.total)
  }

  function NewEpoch(o: OpenMsg): Epoch {
    Epoch(o.startTs, o.endTs, o.total, 0, [], false, ZERO_ROOT, 0, 0, [])
  }

  /** The PDA of an epoch; the index stands for the address derived from it. */
  function EpochKey(index: nat): Key {
    index
  }

  // ----- the distributor program -----

  predicate PushAccepted(e: Epoch, items: seq<Item>, capBps: nat) {
    && |items| <= MAX_PUSH_ITEMS
    && !e.finalized
    && e.pushed + Sum(items) <= e.total
    && (e.pushed + Sum(items)) * BPS <= e.total * capBps
  }

  predicate FinalizeAccepted(e: Epoch, f: FinalMsg) {
    !e.finalized && f.merkleTotal + e.pushed <= e.total
  }

  predicate ClaimAccepted(index: nat, e: Epoch, it: Item, proof: seq<Digest>) {
    && e.finalized
    && it.wallet !in Wallets(e.claims)
    && |proof| <= MAX_PROOF_LEN
    && Fold(LeafDigest(EpochKey(index), it.wallet, it.amount), proof) == e.root
  }

  // ----- moves -----

  datatype Action =
    | LandOpen(sent: Sent)
    | LandFinalize(final: FinalMsg)
    | Claim(item: Item, proof: seq<Digest>)
    | Push(items: seq<Item>, capBps: nat)
    | SendOpen(sent: Sent)
    | SendFinalize(final: FinalMsg)
    | SavePlan(save: Save)         // before an open_epoch
    | SeeOpen                      // no effect: the keeper finds the epoch on chain
    | ReplacePlan(save: Save)      // computed afresh for the epoch on chain
    | SetPhase(phase: Phase)
    | InsertEpoch
    | RecordPayout(item: Item)
    | InsertLeaves(rows: map<Key, LeafRow>)

  /** insert ... on conflict do update ... where epoch_progress.phase = 'planned' */
  predicate Upserts(s: Slot) {
    s.row.Some? ==> s.row.value.phase == Planned
  }

  /** Effect of one transaction or statement on its slot. A rejected transaction changes nothing. */
  function Apply(index: nat, s: Slot, a: Action): Slot {
    match a
    case LandOpen(o) =>
      if s.chain.Some? then s
      else s.(chain := Some(NewEpoch(o.open)), origin := s.origin.(landed := Some(o.save)))
    case LandFinalize(f) =>
      if s.chain.Some? && FinalizeAccepted(s.chain.value, f)
      then s.(chain := Some(s.chain.value.(finalized := true, root := f.root, merkleTotal := f.merkleTotal)))
      else s
    case Claim(it, proof) =>
      if s.chain.Some? && ClaimAccepted(index, s.chain.value, it, proof)
      then s.(chain := Some(s.chain.value.(claimed := s.chain.value.claimed + it.amount, claims := s.chain.value.claims + [it])))
      else s
    case Push(items, capBps) =>
      if s.chain.Some? && PushAccepted(s.chain.value, items, capBps)
      then s.(chain := Some(s.chain.value.(pushed := s.chain.value.pushed + Sum(items), payouts := s.chain.value.payouts + items)))
      else s
    case SendOpen(o) => s.(opens := s.opens + {o})
    case SendFinalize(f) => s.(finals := s.finals + {f})
    case SavePlan(p) =>
      if Upserts(s)
      then s.(row := Some(p.row),
              origin := s.origin.(saves := s.origin.saves + [p], current := Some(|s.origin.saves|), basis := Some(p.basis)))
      else s
    case SeeOpen => s.(origin := s.origin.(seen := true))
    case ReplacePlan(p) =>
      if Upserts(s) then s.(row := Some(p.row), origin := s.origin.(current := None, basis := Some(p.basis))) else s
    case SetPhase(p) =>
      if s.row.Some? then s.(row := Some(s.row.value.(phase := p))) else s
    case InsertEpoch => s.(listed := true)
    case RecordPayout(it) =>
      // on conflict (pool, epoch, wallet, kind) do nothing
      if it.wallet in Wallets(s.payouts) then s else s.(payouts := s.payouts + [it])
    case InsertLeaves(rows) => s.(leaves := s.leaves + rows)
  }

  /** What `computePlan` may return: sorted by wallet, positive, and the whole total (or nothing at all). */
  ghost predicate GoodPlan(plan: seq<Item>, total: nat) {
    Ascending(plan) && Positive(plan) && total <= U64_MAX && (plan == [] || Sum(plan) == total)
  }

  /** A row as saveEpochPlan writes it. That its plan is computed from its basis is added in `MoveAllowed`. */
  ghost predicate SavedWell(p: Save) {
    p.row.phase == Planned && GoodPlan(p.row.plan, p.row.total)
  }

  /** Root and total of the tree over what `paid` leaves of the plan. */
  function FinalFor(index: nat, plan: seq<Item>, paid: seq<Item>): FinalMsg {
    var rest := Remainder(plan, Wallets(paid));
    FinalMsg(RootOf(EpochKey(index), rest), Sum(rest))
  }

  /** The merkle_leaves rows of a tree. */
  function ClaimTable(index: nat, entries: seq<Item>): map<Key, LeafRow> {
    var leaves := LeafDigests(EpochKey(index), entries);
    map w | w in Wallets(entries) :: LeafRow(entries[Position(entries, w)].amount, Proof(leaves, Position(entries, w)))
  }

  lemma ClaimTableFacts(index: nat, entries: seq<Item>, i: nat)
    requires Distinct(entries) && i < |entries|
    ensures entries[i].wallet in ClaimTable(index, entries)
    ensures ClaimTable(index, entries)[entries[i].wallet] == LeafRow(entries[i].amount, Proof(LeafDigests(EpochKey(index), entries), i))
  {
    PositionIs(entries, i);
    assert entries[i].wallet in Wallets(entries);
  }

  ghost predicate Allowed(index: nat, s: Slot, a: Action) {
    match a
    // anyone, any time
    case LandOpen(o) => o in s.opens
    case LandFinalize(f) => f in s.finals
    case Claim(_, _) => true
    case InsertEpoch => s.chain.Some?
    case RecordPayout(it) => s.chain.Some? && it in s.chain.value.payouts
    // the keeper
    case SavePlan(p) => SavedWell(p) && !s.origin.seen  // the epoch may have landed unseen
    case SendOpen(o) =>
      && s.row.Some? && s.origin.current == Some(o.save) && o.open == OpenFor(s.row.value)
      && o.open.startTs < o.open.endTs && o.open.total <= U64_MAX
    case SeeOpen => s.chain.Some?
    case ReplacePlan(p) =>
      && s.origin.seen && s.row.Some? && s.chain.Some? && s.row.value.total != s.chain.value.total
      && SavedWell(p) && OpenFor(p.row) == OpenOf(s.chain.value)
    case SetPhase(p) =>
      && s.origin.seen && s.row.Some? && s.chain.Some? && s.row.value.total == s.chain.value.total
      && s.row.value.phase != Finalized
      && p != Planned
      && (p == Finalized ==>
            && s.chain.value.finalized
            && s.leaves == ClaimTable(index, Remainder(s.row.value.plan, Wallets(s.chain.value.payouts)))
            && Wallets(s.chain.value.payouts) <= Wallets(s.payouts))
    case Push(items, _) =>
      && s.listed && s.row.Some? && s.row.value.phase != Planned && s.chain.Some?
      && Distinct(items) && Within(items, s.row.value.plan)
      && Wallets(items) !! Wallets(s.chain.value.payouts)
    case SendFinalize(f) =>
      && s.listed && s.row.Some? && s.row.value.phase == Phase.Pushed && s.chain.Some?
      && f == FinalFor(index, s.row.value.plan, s.chain.value.payouts)
    case InsertLeaves(rows) =>
      && s.row.Some? && s.chain.Some? && s.chain.value.finalized
      && s.row.value.phase != Finalized
      && rows == ClaimTable(index, Remainder(s.row.value.plan, Wallets(s.chain.value.payouts)))
  }

  // ----- the invariant of one slot -----

  /** Plan before open, totals agreed and the epoch listed before anything is paid. */
  ghost predicate InOrder(s: Slot) {
    && (s.opens != {} || s.chain.Some? ==> s.row.Some?)
    && (s.row.Some? ==> GoodPlan(s.row.value.plan, s.row.value.total))
    && (s.row.Some? && s.row.value.phase != Planned ==> s.chain.Some? && s.row.value.total == s.chain.value.total)
    && (s.chain.None? ==> s.finals == {} && s.payouts == [] && s.leaves == map[])
    && (s.chain.Some? && (s.chain.value.payouts != [] || s.finals != {} || s.chain.value.finalized) ==>
          s.row.value.phase != Planned)
    && (s.finals != {} || (s.chain.Some? && (s.chain.value.payouts != [] || s.chain.value.finalized)) ==> s.listed)
  }

  /** Each wallet is pushed at most once and only its plan entry; recorded pushes are landed pushes. */
  ghost predicate PushesOk(s: Slot) {
    s.chain.Some? && s.row.Some? ==>
      var e := s.chain.value;
      && Distinct(e.payouts) && Within(e.payouts, s.row.value.plan)
      && e.pushed == Sum(e.payouts) <= e.total
      && Distinct(s.payouts) && Within(s.payouts, e.payouts)
  }

  ghost predicate FinalOfPrefix(index: nat, f: FinalMsg, plan: seq<Item>, payouts: seq<Item>, n: nat) {
    n <= |payouts| && f == FinalFor(index, plan, payouts[..n])
  }

  /** A finalize in flight commits to the pushes landed when it was sent; a landed one, to all pushes. */
  ghost predicate FinalsOk(index: nat, s: Slot) {
    s.chain.Some? && s.row.Some? ==>
      var e := s.chain.value;
      && (forall f :: f in s.finals ==> exists n: nat :: FinalOfPrefix(index, f, s.row.value.plan, e.payouts, n))
      && (e.finalized ==> FinalMsg(e.root, e.merkleTotal) == FinalFor(index, s.row.value.plan, e.payouts))
  }

  ghost predicate ClaimsOk(s: Slot) {
    s.chain.Some? && s.row.Some? ==>
      var e := s.chain.value;
      && e.claimed == Sum(e.claims) && Distinct(e.claims)
      && (!e.finalized ==> e.claims == [])
      && Within(e.claims, Remainder(s.row.value.plan, Wallets(e.payouts)))
  }

  ghost predicate LeavesOk(index: nat, s: Slot) {
    s.chain.Some? && s.row.Some? ==>
      var table := ClaimTable(index, Remainder(s.row.value.plan, Wallets(s.chain.value.payouts)));
      && (s.leaves == map[] || (s.chain.value.finalized && s.leaves == table))
      && (s.row.value.phase == Finalized ==> s.chain.value.finalized && s.leaves == table)
  }

  /** The bookkeeping of an epoch marked finalized has every push. */
  ghost predicate RowsOk(s: Slot) {
    s.chain.Some? && s.row.Some? && s.row.value.phase == Finalized ==> Wallets(s.chain.value.payouts) <= Wallets(s.payouts)
  }

  /** The row holds the last plan saved, unless one was computed afresh; what landed was sent for a saved plan. */
  ghost predicate OriginOk(s: Slot) {
    var h := s.origin;
    && (s.row.Some? <==> h.saves != [])
    && (s.row.Some? && s.row.value.phase != Planned ==> h.seen)
    && (h.seen ==> s.chain.Some?)
    && (forall o :: o in s.opens ==> o.save < |h.saves| && o.open == OpenFor(h.saves[o.save].row))
    && (s.chain.Some? <==> h.landed.Some?)
    && (s.chain.Some? ==> Sent(OpenOf(s.chain.value), h.landed.value) in s.opens)
    && (s.row.Some? ==> h.basis.Some?)
    && (h.current.Some? ==>
          && s.row.Some? && h.current.value == |h.saves| - 1
          && Save(s.row.value.(phase := Planned), h.basis.value) == h.saves[|h.saves| - 1])
    && (s.row.Some? && h.current.None? ==> h.seen && OpenFor(s.row.value) == OpenOf(s.chain.value))
  }

  ghost predicate SlotOk(index: nat, s: Slot) {
    InOrder(s) && PushesOk(s) && FinalsOk(index, s) && ClaimsOk(s) && LeavesOk(index, s) && RowsOk(s) && OriginOk(s)
  }

  /** The stored plan is the one the landed `open_epoch` was sent for. */
  predicate PaysItsOpen(s: Slot) {
    s.chain.Some? && s.origin.current.Some? && s.origin.current == s.origin.landed
  }

  /** The stored allocation is the one the epoch was opened with. */
  predicate PaysItsAllocation(s: Slot) {
    && s.row.Some? && s.origin.landed.Some? && s.origin.landed.value < |s.origin.saves|
    && s.row.value.plan == s.origin.saves[s.origin.landed.value].row.plan
  }

  /** The stored total is the one on chain. */
  predicate TotalsAgree(s: Slot) {
    s.row.Some? && s.chain.Some? && s.row.value.total == s.chain.value.total
  }

  /** What can never be undone, in a slot. */
  ghost predicate Evolves(s: Slot, t: Slot) {
    && (s.row.Some? ==> t.row.Some?)
    && (s.row.Some? && s.row.value.phase != Planned ==>
          && t.row.value.phase != Planned && t.row.value.plan == s.row.value.plan && t.row.value.total == s.row.value.total
          && (s.row.value.phase == Finalized ==> t.row == s.row && t.leaves == s.leaves))
    && (s.chain.Some? ==> t.chain.Some? && EpochEvolves(s.chain.value, t.chain.value))
    && (s.listed ==> t.listed)
    && OriginEvolves(s, t)
  }

  /**
   Once the keeper has seen an epoch on chain no other plan is saved for it. Without another save, a stored
   plan with the total on chain stays, and it stays settled whether the row is the one saved for the open.
   */
  ghost predicate OriginEvolves(s: Slot, t: Slot) {
    && s.origin.saves <= t.origin.saves
    && (s.origin.seen ==> t.origin.seen && t.origin.saves == s.origin.saves)
    && (t.origin.saves == s.origin.saves && TotalsAgree(s) ==>
          TotalsAgree(t) && t.row.value.plan == s.row.value.plan && t.origin.basis == s.origin.basis)
    && (s.chain.Some? ==> t.origin.landed == s.origin.landed)
    && (s.chain.Some? && t.origin.saves == s.origin.saves ==> (PaysItsOpen(t) <==> PaysItsOpen(s)))
  }

  ghost predicate EpochEvolves(e: Epoch, f: Epoch) {
    && f.startTs == e.startTs && f.endTs == e.endTs && f.total == e.total
    && e.payouts <= f.payouts && e.claims <= f.claims
    && (e.finalized ==> f.finalized && f.payouts == e.payouts && f.root == e.root && f.merkleTotal == e.merkleTotal)
  }

  // ----- every move keeps the invariant -----

  /** Closing an epoch leaves its pushes, rows and origin alone. */
  lemma ClosingAside(index: nat, s: Slot, t: Slot, f: FinalMsg)
    requires SlotOk(index, s) && s.chain.Some? && !s.chain.value.finalized && f in s.finals
    requires t == s.(chain := Some(s.chain.value.(finalized := true, root := f.root, merkleTotal := f.merkleTotal)))
    ensures InOrder(t) && PushesOk(t) && ClaimsOk(t) && RowsOk(t) && OriginOk(t)
  {}

  lemma LandFinalizeKeeps(index: nat, s: Slot, f: FinalMsg)
    requires SlotOk(index, s) && f in s.finals
    ensures SlotOk(index, Apply(index, s, LandFinalize(f)))
  {
    if s.chain.Some? && FinalizeAccepted(s.chain.value, f) {
      var t := Apply(index, s, LandFinalize(f));
      ClosingAside(index, s, t, f);
      LateFinalizeIsCurrent(index, s, f);
      assert FinalsOk(index, t) && LeavesOk(index, t);
    }
  }

  /**
   A finalize the program accepts commits to every push that has landed, however long ago it was sent:
   a push that landed in between would leave too little in the epoch for its merkle total.
   */
  lemma LateFinalizeIsCurrent(index: nat, s: Slot, f: FinalMsg)
    requires SlotOk(index, s) && f in s.finals
    requires s.chain.Some? && FinalizeAccepted(s.chain.value, f)
    ensures s.row.Some? && f == FinalFor(index, s.row.value.plan, s.chain.value.payouts)
  {
    var plan, landed := s.row.value.plan, s.chain.value.payouts;
    var n: nat :| FinalOfPrefix(index, f, plan, landed, n);
    NothingSince(plan, landed, n, s.chain.value.total);
  }

  /** If the rest of the plan after `n` pushes still fits on top of all pushes, there are no others. */
  lemma NothingSince(plan: seq<Item>, landed: seq<Item>, n: nat, total: nat)
    requires GoodPlan(plan, total) && Distinct(landed) && Within(landed, plan) && n <= |landed|
    requires plan != [] ==> Sum(Remainder(plan, Wallets(landed[..n]))) + Sum(landed) <= total
    ensures landed[..n] == landed
  {
    var earlier, since := landed[..n], landed[n..];
    assert landed == earlier + since;
    SumConcat(earlier, since);
    PaidPlusRemainder(plan, earlier);
    WithinFacts(landed, plan);
    PositiveSum(since);
    assert since == [];
  }

  lemma PushKeepsPushes(index: nat, s: Slot, items: seq<Item>, capBps: nat)
    requires SlotOk(index, s) && Allowed(index, s, Push(items, capBps)) && PushAccepted(s.chain.value, items, capBps)
    ensures PushesOk(Apply(index, s, Push(items, capBps)))
  {
    var before := s.chain.value.payouts;
    var after := before + items;
    SumConcat(before, items);
    forall i, j | 0 <= i < j < |after| ensures after[i].wallet != after[j].wallet {
      if i < |before| <= j {
        assert before[i].wallet in Wallets(before);
        assert items[j - |before|].wallet in Wallets(items);
      }
    }
  }

  lemma PushKeepsFinals(index: nat, s: Slot, items: seq<Item>, capBps: nat)
    requires SlotOk(index, s) && Allowed(index, s, Push(items, capBps)) && PushAccepted(s.chain.value, items, capBps)
    ensures FinalsOk(index, Apply(index, s, Push(items, capBps)))
  {
    var plan, before := s.row.value.plan, s.chain.value.payouts;
    var after := before + items;
    forall f | f in s.finals ensures exists n: nat :: FinalOfPrefix(index, f, plan, after, n) {
      var n: nat :| FinalOfPrefix(index, f, plan, before, n);
      assert after[..n] == before[..n];
      assert FinalOfPrefix(index, f, plan, after, n);
    }
  }

  lemma PushKeeps(index: nat, s: Slot, items: seq<Item>, capBps: nat)
    requires SlotOk(index, s) && Allowed(index, s, Push(items, capBps))
    ensures SlotOk(index, Apply(index, s, Push(items, capBps)))
  {
    if PushAccepted(s.chain.value, items, capBps) {
      PushKeepsPushes(index, s, items, capBps);
      PushKeepsFinals(index, s, items, capBps);
      var t := Apply(index, s, Push(items, capBps));
      assert InOrder(t);
      assert ClaimsOk(t) by {
        assert t.chain.value.claims == [];
      }
      assert LeavesOk(index, t) by {
        assert s.leaves == map[] && s.row.value.phase != Finalized;
      }
    }
  }

  lemma ClaimKeepsClaims(index: nat, s: Slot, it: Item, proof: seq<Digest>)
    requires SlotOk(index, s) && s.chain.Some? && ClaimAccepted(index, s.chain.value, it, proof)
    ensures ClaimsOk(Apply(index, s, Claim(it, proof)))
  {
    var e := s.chain.value;
    var rest := Remainder(s.row.value.plan, Wallets(e.payouts));
    ClaimIsEntry(EpochKey(index), rest, EpochKey(index), it.wallet, it.amount, proof);
    AppendDistinct(e.claims, it);
  }

  lemma ClaimKeeps(index: nat, s: Slot, it: Item, proof: seq<Digest>)
    requires SlotOk(index, s)
    ensures SlotOk(index, Apply(index, s, Claim(it, proof)))
  {
    if s.chain.Some? && ClaimAccepted(index, s.chain.value, it, proof) {
      ClaimKeepsClaims(index, s, it, proof);
      var t := Apply(index, s, Claim(it, proof));
      assert InOrder(t) && PushesOk(t) && LeavesOk(index, t);
    }
  }

  /** Rows of `payouts` and `merkle_leaves` have no say in what is in flight or where the plan comes from. */
  lemma RowsAside(index: nat, s: Slot, t: Slot)
    requires SlotOk(index, s) && t == s.(payouts := t.payouts, leaves := t.leaves)
    requires s.chain.None? ==> t.payouts == [] && t.leaves == map[]
    ensures InOrder(t) && FinalsOk(index, t) && ClaimsOk(t) && OriginOk(t)
  {}

  lemma RecordPayoutKeeps(index: nat, s: Slot, it: Item)
    requires SlotOk(index, s) && Allowed(index, s, RecordPayout(it))
    ensures SlotOk(index, Apply(index, s, RecordPayout(it)))
  {
    if it.wallet !in Wallets(s.payouts) {
      var t := s.(payouts := s.payouts + [it]);
      AppendDistinct(s.payouts, it);
      RowsAside(index, s, t);
      assert PushesOk(t) && LeavesOk(index, t) && RowsOk(t);
    }
  }

  /** A transaction in flight says nothing about what has been paid, claimed or recorded. */
  lemma FlightAside(index: nat, s: Slot, t: Slot)
    requires SlotOk(index, s) && t == s.(opens := t.opens, finals := t.finals)
    ensures PushesOk(t) && ClaimsOk(t) && LeavesOk(index, t) && RowsOk(t)
  {}

  lemma SendFinalizeKeeps(index: nat, s: Slot, f: FinalMsg)
    requires SlotOk(index, s) && Allowed(index, s, SendFinalize(f))
    ensures SlotOk(index, Apply(index, s, SendFinalize(f)))
  {
    var t := Apply(index, s, SendFinalize(f));
    SendFinalizeFinals(index, s, f);
    FlightAside(index, s, t);
    FinalsAside(s, t);
  }

  lemma FinalsAside(s: Slot, t: Slot)
    requires t == s.(finals := t.finals) && InOrder(s) && OriginOk(s)
    requires s.listed && s.chain.Some? && s.row.Some? && s.row.value.phase != Planned
    ensures InOrder(t) && OriginOk(t)
  {}

  /** What is sent commits to all pushes landed so far. */
  lemma SendFinalizeFinals(index: nat, s: Slot, f: FinalMsg)
    requires FinalsOk(index, s) && Allowed(index, s, SendFinalize(f))
    ensures FinalsOk(index, Apply(index, s, SendFinalize(f)))
  {
    var payouts := s.chain.value.payouts;
    assert payouts[..|payouts|] == payouts;
    assert FinalOfPrefix(index, f, s.row.value.plan, payouts, |payouts|);
  }

  lemma SendOpenKeeps(index: nat, s: Slot, o: Sent)
    requires SlotOk(index, s) && Allowed(index, s, SendOpen(o))
    ensures SlotOk(index, Apply(index, s, SendOpen(o)))
  {
    var t := Apply(index, s, SendOpen(o));
    FlightAside(index, s, t);
    assert InOrder(t) && FinalsOk(index, t) && OriginOk(t);
  }

  /** Listing an epoch, or finding it on chain, changes nothing that was promised. */
  lemma NotesAside(index: nat, s: Slot, t: Slot)
    requires SlotOk(index, s) && t == s.(listed := t.listed, origin := t.origin) && (s.listed ==> t.listed)
    ensures InOrder(t) && PushesOk(t) && FinalsOk(index, t) && ClaimsOk(t) && LeavesOk(index, t) && RowsOk(t)
  {}

  lemma SeeOpenKeeps(index: nat, s: Slot)
    requires SlotOk(index, s) && Allowed(index, s, SeeOpen)
    ensures SlotOk(index, Apply(index, s, SeeOpen))
  {
    NotesAside(index, s, Apply(index, s, SeeOpen));
  }

  lemma InsertEpochKeeps(index: nat, s: Slot)
    requires SlotOk(index, s) && Allowed(index, s, InsertEpoch)
    ensures SlotOk(index, Apply(index, s, InsertEpoch))
  {
    NotesAside(index, s, Apply(index, s, InsertEpoch));
  }

  lemma LandOpenKeeps(index: nat, s: Slot, o: Sent)
    requires SlotOk(index, s) && o in s.opens
    ensures SlotOk(index, Apply(index, s, LandOpen(o)))
  {
    var t := Apply(index, s, LandOpen(o));
    assert InOrder(t);
  }

  /** Another plan while the phase is 'planned' breaks nothing: nothing has been paid from the old one. */
  lemma UpsertKeeps(index: nat, s: Slot, t: Slot, r: PlanRow)
    requires SlotOk(index, s) && Upserts(s) && GoodPlan(r.plan, r.total) && r.phase == Planned
    requires t == s.(row := Some(r), origin := t.origin)
    ensures InOrder(t) && PushesOk(t) && FinalsOk(index, t) && ClaimsOk(t) && LeavesOk(index, t) && RowsOk(t)
  {
    assert InOrder(t);
    if s.chain.Some? {
      assert s.chain.value.payouts == [] && s.finals == {} && !s.chain.value.finalized;
      WithinFacts(s.payouts, s.chain.value.payouts);
      assert s.leaves == map[];
    }
  }

  lemma SavePlanKeeps(index: nat, s: Slot, p: Save)
    requires SlotOk(index, s) && Allowed(index, s, SavePlan(p))
    ensures SlotOk(index, Apply(index, s, SavePlan(p)))
  {
    UpsertKeeps(index, s, Apply(index, s, SavePlan(p)), p.row);
  }

  lemma ReplacePlanKeeps(index: nat, s: Slot, p: Save)
    requires SlotOk(index, s) && Allowed(index, s, ReplacePlan(p))
    ensures SlotOk(index, Apply(index, s, ReplacePlan(p)))
  {
    UpsertKeeps(index, s, Apply(index, s, ReplacePlan(p)), p.row);
  }

  lemma SetPhaseKeeps(index: nat, s: Slot, p: Phase)
    requires SlotOk(index, s) && Allowed(index, s, SetPhase(p))
    ensures SlotOk(index, Apply(index, s, SetPhase(p)))
  {}

  lemma InsertLeavesKeeps(index: nat, s: Slot, rows: map<Key, LeafRow>)
    requires SlotOk(index, s) && Allowed(index, s, InsertLeaves(rows))
    ensures SlotOk(index, Apply(index, s, InsertLeaves(rows)))
    ensures Apply(index, s, InsertLeaves(rows)).leaves == rows
  {
    var t := Apply(index, s, InsertLeaves(rows));
    assert s.leaves + rows == rows by {
      assert s.leaves == map[] || s.leaves == rows;
    }
    assert t == s.(leaves := rows);
    RowsAside(index, s, t);
    assert PushesOk(t) && LeavesOk(index, t) && RowsOk(t);
  }

  lemma ActionKeeps(index: nat, s: Slot, a: Action)
    requires SlotOk(index, s) && Allowed(index, s, a)
    ensures SlotOk(index, Apply(index, s, a))
  {
    match a
    case LandFinalize(f) => LandFinalizeKeeps(index, s, f);
    case Push(items, capBps) => PushKeeps(index, s, items, capBps);
    case Claim(it, proof) => ClaimKeeps(index, s, it, proof);
    case RecordPayout(it) => RecordPayoutKeeps(index, s, it);
    case SendFinalize(f) => SendFinalizeKeeps(index, s, f);
    case LandOpen(o) => LandOpenKeeps(index, s, o);
    case SavePlan(r) => SavePlanKeeps(index, s, r);
    case SetPhase(p) => SetPhaseKeeps(index, s, p);
    case InsertLeaves(rows) => InsertLeavesKeeps(index, s, rows);
    case ReplacePlan(r) => ReplacePlanKeeps(index, s, r);
    case SendOpen(o) => SendOpenKeeps(index, s, o);
    case SeeOpen => SeeOpenKeeps(index, s);
    case InsertEpoch => InsertEpochKeeps(index, s);
  }

  lemma ActionKeepsChain(index: nat, s: Slot, a: Action)
    requires s.chain.Some?
    ensures Apply(index, s, a).chain.Some? && EpochEvolves(s.chain.value, Apply(index, s, a).chain.value)
  {}

  lemma ActionKeepsRow(index: nat, s: Slot, a: Action)
    requires InOrder(s) && Allowed(index, s, a) && s.row.Some?
    ensures var t := Apply(index, s, a);
      && t.row.Some?
      && (s.row.value.phase != Planned ==>
            && t.row.value.phase != Planned && t.row.value.plan == s.row.value.plan && t.row.value.total == s.row.value.total
            && (s.row.value.phase == Finalized ==> t.row == s.row && t.leaves == s.leaves))
  {}

  /** A plan the epoch was opened for has its total, so it is never replaced. */
  lemma OwnPlanStays(s: Slot)
    requires OriginOk(s) && PaysItsOpen(s)
    ensures s.row.Some? && OpenFor(s.row.value) == OpenOf(s.chain.value)
  {
    assert Sent(OpenOf(s.chain.value), s.origin.landed.value) in s.opens;
  }

  lemma ActionKeepsOrigin(index: nat, s: Slot, a: Action)
    requires InOrder(s) && OriginOk(s) && Allowed(index, s, a)
    ensures OriginEvolves(s, Apply(index, s, a))
  {
    if PaysItsOpen(s) {
      OwnPlanStays(s);
    }
  }

  lemma ActionEvolves(index: nat, s: Slot, a: Action)
    requires SlotOk(index, s) && Allowed(index, s, a)
    ensures Evolves(s, Apply(index, s, a))
  {
    if s.chain.Some? {
      ActionKeepsChain(index, s, a);
    }
    if s.row.Some? {
      ActionKeepsRow(index, s, a);
    }
    ActionKeepsOrigin(index, s, a);
  }
}
