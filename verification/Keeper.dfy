/**
 The payout cycle of the keeper (apps/keeper/src/cycles/payouts.ts and the upserts of db.ts).

 `Await` stands for every `await` of the code: in-flight transactions may land, wallets may claim, the
 indexer may write, and the keeper may die there and never continue. `run` records every move made; each
 method is proved to make only moves that `MoveAllowed` admits, whatever happens at its awaits.
 */
module Keeper {
  import opened Allocations
  import opened Epochs
  import opened Guarantees
  import opened Items
  import opened Merkle
  import opened PayoutRules
  import opened Plans
  import opened Prelude
  import opened Runs
  import opened Shares

  /** Why a method did not return normally. All but `Crashed` are exceptions of the code. */
  datatype Stop = Crashed | OpenRejected | NotReadable | AlreadyClosed | MerkleTooLarge | Unreconciled | RootMismatch

  datatype Async<+T> = Stopped(why: Stop) | Done(value: T) {
    predicate IsFailure() {
      Stopped?
    }
    function PropagateFailure<U>(): Async<U>
      requires Stopped?
    {
      Stopped(why)
    }
    function Extract(): T
      requires Done?
    {
      value
    }
  }

  type TokenAmount = b: nat | b <= U64_MAX  // a token account balance

  /** What a cycle reads from outside: chain clock and balances, prices as one gate, settings. */
  datatype Readings = Readings(
    vault: TokenAmount,           // coin in the holder vault
    worthIt: bool,             // the vault is worth the minimum in dollars
    nowSec: int,               // chain clock
    basis: Basis,              // balance_events, program-owned addresses, and who passes the holding filter
    accounts: set<Key>,        // wallets that have a token account for the coin
    maxPushBps: nat,           // the program's push cap
    unread: nat,               // oldest pushes that do not fit the page of transactions read back
    feeCycleIntervalSec: nat)

  /**
   What a completed cycle did: the newest epoch it found, whether that was open and has been resumed, whether its
   rows are in order, and the epoch it opened, if any.
   */
  datatype Cycle = Cycle(latest: Option<nat>, resumed: bool, repaired: bool, next: Option<nat>)

  /** The claim tree over what is left; none when nobody is left. */
  method TreeOf(k: nat, entries: seq<Item>) returns (tree: Option<EpochTree>)
    requires Distinct(entries) && FitU64(entries)
    ensures tree.None? <==> entries == []
    ensures tree.Some? ==> tree.value.entries == entries && tree.value.total == Sum(entries)
    ensures tree.Some? ==> tree.value.tree.layers == Layers(LeafDigests(EpochKey(k), entries)) && tree.value.tree.root == RootOf(EpochKey(k), entries)
  {
    if entries == [] {
      return None;
    }
    var built := BuildEpochTree(EpochKey(k), entries);
    return Some(built.value);
  }

  /** Root and total for `finalize_epoch`: the zero root and 0 when nobody is left. */
  method FinalMessage(k: nat, entries: seq<Item>) returns (tree: Option<EpochTree>, final: FinalMsg)
    requires Distinct(entries) && FitU64(entries)
    ensures tree.None? <==> entries == []
    ensures tree.Some? ==> tree.value.entries == entries && tree.value.tree.layers == Layers(LeafDigests(EpochKey(k), entries))
    ensures final == FinalMsg(RootOf(EpochKey(k), entries), Sum(entries))
  {
    tree := TreeOf(k, entries);
    var root := if tree.Some? then tree.value.tree.root else ZERO_ROOT;
    var merkleTotal := if tree.Some? then tree.value.total else 0;
    final := FinalMsg(root, merkleTotal);
  }

  /** First half of pushAndFinalize: what is left of the plan, split into pushes and a claim tree. */
  method SplitPlan(plan: seq<Item>, acc: Epoch, alreadyPushed: seq<Item>, accounts: set<Key>, pushCap: nat)
    returns (pushable: seq<Item>, merkle: seq<Item>, pushedTotal: nat)
    requires Ascending(plan) && Distinct(acc.payouts) && Within(acc.payouts, plan)
    requires Wallets(alreadyPushed) == Wallets(acc.payouts)
    ensures SplitOf(plan, acc.payouts, pushable, merkle) && merkle == Remainder(plan, Wallets(acc.payouts + pushable))
    ensures Wallets(pushable) <= accounts && pushedTotal == acc.pushed + Sum(pushable)
    ensures Sum(acc.payouts + pushable) == Sum(acc.payouts) + Sum(pushable)
    ensures pushable == [] || pushedTotal <= pushCap
    ensures forall it :: it in merkle && it.wallet in accounts ==> pushedTotal + it.amount > pushCap
    ensures pushable == Taken(Remainder(plan, Wallets(acc.payouts)), accounts, acc.pushed, pushCap)
  {
    var remaining := Remainder(plan, Wallets(alreadyPushed));
    RemainderAscends(plan, Wallets(alreadyPushed));
    pushable, merkle, pushedTotal := Split(remaining, accounts, acc.pushed, pushCap);
    SplitIs(plan, acc.payouts, remaining, pushable, merkle);
    SplitAddsUp(plan, acc.payouts, pushable, merkle);
    SumConcat(acc.payouts, pushable);
  }

  /** The rows of `merkle_leaves`, proof by proof. */
  method LeafRows(k: nat, t: EpochTree) returns (rows: map<Key, LeafRow>)
    requires t.entries != [] && Distinct(t.entries) && t.tree.layers == Layers(LeafDigests(EpochKey(k), t.entries))
    ensures rows == ClaimTable(k, t.entries)
  {
    var leaves := LeafDigests(EpochKey(k), t.entries);
    rows := map[];
    for i := 0 to |t.entries|
      invariant rows.Keys == Wallets(t.entries[..i])
      invariant forall j :: 0 <= j < i ==>
        t.entries[j].wallet in rows && rows[t.entries[j].wallet] == LeafRow(t.entries[j].amount, Proof(leaves, j))
    {
      var proof := GetProof(leaves, t.tree.layers, i);
      WalletsOneMore(t.entries, i);
      rows := rows[t.entries[i].wallet := LeafRow(t.entries[i].amount, proof.value)];
    }
    assert t.entries[..|t.entries|] == t.entries;
    ClaimTableIs(k, t.entries, rows);
  }

  /** `computePlan` over what `balance_events` holds by now, with today's exclusions and holding filter. */
  method PlanNow(now: Readings, startTs: int, endTs: int, total: nat) returns (plan: Option<seq<Item>>)
    requires startTs < endTs && total <= U64_MAX
    ensures plan.Some? ==> plan.value != []
    ensures var listed := if plan.Some? then plan.value else [];
      && GoodPlan(listed, total) && listed == PlanOf(now.basis, startTs, endTs, total)
      && forall it: Item :: it in listed <==> it.amount > 0 && it in SharesFor(now.basis, startTs, endTs, total)
  {
    plan := ComputePlan(now.basis, startTs, endTs, total);
  }

  /** Nothing was pushed to epoch `k` in between. */
  predicate NoPushes(w: World, v: World, k: nat) {
    k < |w| && k < |v| && w[k].chain.Some? ==> v[k].chain.Some? && v[k].chain.value.payouts == w[k].chain.value.payouts
  }

  predicate IsClosed(w: World, k: nat) {
    k < |w| && Closed(w[k])
  }

  /** Closed on chain, with leaves, pushes and the row in `epochs` all written. */
  predicate IsSettled(w: World, k: nat) {
    IsClosed(w, k) && w[k].row.Some? && w[k].row.value.phase == Finalized && w[k].listed
  }

  /** No epoch is due: the vault is empty or not worth it, no time has passed, or nobody is to be paid. */
  ghost predicate NothingToOpen(startTs: int, now: Readings) {
    || now.vault == 0
    || !now.worthIt
    || now.nowSec <= startTs
    || PlanOf(now.basis, startTs, now.nowSec, now.vault) == []
  }

  /** The epoch is for the whole vault from `startTs` to now, and is paid out: every positive share once, by account and cap. */
  ghost predicate OpenedAsDue(k: nat, s: Slot, startTs: int, now: Readings) {
    && startTs < now.nowSec && s.chain.Some? && s.row.Some?
    && OpenOf(s.chain.value) == OpenMsg(startTs, now.nowSec, now.vault)
    && PaysOnce(k, s, SharesFor(now.basis, startTs, now.nowSec, now.vault))
    && PaidByRule(s.chain.value, [], s.row.value.plan, now.accounts, now.maxPushBps)
  }

  // ----- the keeper -----

  class Keeper {
    var world: World          // chain, in-flight transactions and tables
    ghost var run: seq<World> // every state so far
    ghost var mishaps: nat    // deaths at an await, and reads that failed

    ghost predicate Valid()
      reads this
    {
      IsRun(run) && world == run[|run| - 1]
    }

    ghost predicate Paying(k: nat, plan: seq<Item>, total: nat, paid: seq<Item>)
      reads this
    {
      k < |world| && PayingSlot(world[k], plan, total, paid)
    }

    /** Everybody in `paid` has a row in `payouts`. */
    ghost predicate Recorded(k: nat, paid: seq<Item>)
      reads this
    {
      k < |world| && Wallets(paid) <= Wallets(world[k].payouts)
    }

    /** Epoch `k` is closed on chain and its bookkeeping is complete. */
    ghost predicate Settled(k: nat)
      reads this
    {
      IsSettled(world, k)
    }

    lemma Sound(k: nat)
      requires Valid() && k < |world|
      ensures SlotOk(k, world[k]) && world[k].row.Some? && WindowOk(world[k])
      ensures k > 0 ==> Linked(world[k - 1], world[k])
    {
      RunKeeps(run, |run| - 1);
    }

    /** Empty tables, nothing on chain. */
    constructor ()
      ensures Valid() && world == [] && run == [[]] && mishaps == 0
    {
      world, run, mishaps := [], [[]], 0;
    }

    /** One transaction lands or one statement commits. */
    method Make(m: Move)
      requires Valid() && MoveAllowed(world, m)
      modifies `world, `run
      ensures Valid() && world == Step(old(world), m) && run == old(run) + [world]
    {
      Extend(run, m);
      world := Step(world, m);
      run := run + [world];
    }

    /** An `await`: others move, and the keeper may die. */
    method Await() returns (r: Async<()>)
      requires Valid()
      modifies this
      ensures Valid() && old(run) <= run && old(mishaps) <= mishaps && Quiet(old(world), world)
      ensures r == Done(()) || (r == Stopped(Crashed) && mishaps > old(mishaps))
    {
      var moves: seq<Move> := *;
      for i := 0 to |moves|
        invariant Valid() && old(run) <= run && old(mishaps) <= mishaps && Quiet(old(world), world)
      {
        if EnvironmentMay(world, moves[i]) {
          RunKeeps(run, |run| - 1);
          QuietStep(world, moves[i]);
          QuietTransitive(old(world), world, Step(world, moves[i]));
          Make(moves[i]);
        }
      }
      var alive: bool := *;
      r := if alive then Done(()) else Stopped(Crashed);
      mishaps := if alive then mishaps else mishaps + 1;
    }

    // ----- statements (db.ts) -----

    /** A plan is stored before its epoch is opened; it replaces an earlier one only while the phase is 'planned'. */
    method SaveEpochPlan(k: nat, save: Save)
      requires Valid() && k <= |world| && SavedWell(save) && FromBasis(save) && !At(world, k).origin.seen
      requires k > 0 ==> Closed(world[k - 1])
      modifies `world, `run
      ensures Valid() && old(run) <= run
      ensures Upserts(At(old(world), k))
      ensures var s := At(old(world), k);
        var t := s.(row := Some(save.row),
                    origin := s.origin.(saves := s.origin.saves + [save], current := Some(|s.origin.saves|), basis := Some(save.basis)));
        world == if k < |old(world)| then old(world)[k := t] else old(world) + [t]
    {
      if k < |world| {
        Sound(k);
      }
      Make(Move(k, SavePlan(save)));
    }

    /** The same statement on resume: a plan computed afresh for the epoch on chain. */
    method ReplaceEpochPlan(k: nat, save: Save)
      requires Valid() && k < |world| && SavedWell(save) && FromBasis(save)
      requires world[k].origin.seen && world[k].row.Some? && world[k].chain.Some?
      requires !TotalsAgree(world[k]) && OpenFor(save.row) == OpenOf(world[k].chain.value)
      requires k > 0 ==> Closed(world[k - 1])
      modifies `world, `run
      ensures Valid() && old(run) <= run
      ensures Upserts(old(world)[k])
      ensures world == old(world)[k := old(world)[k].(
        row := Some(save.row), origin := old(world)[k].origin.(current := None, basis := Some(save.basis)))]
    {
      Sound(k);
      Make(Move(k, ReplacePlan(save)));
    }

    method SetEpochPhase(k: nat, phase: Phase)
      requires Valid() && k < |world| && world[k].row.Some? && world[k].chain.Some?
      requires world[k].row.value.phase != Finalized
      requires world[k].origin.seen && world[k].row.value.total == world[k].chain.value.total
      requires phase == Opened || phase == Phase.Pushed
      modifies `world, `run
      ensures Valid() && old(run) <= run
      ensures world == old(world)[k := old(world)[k].(row := Some(old(world)[k].row.value.(phase := phase)))]
    {
      Make(Move(k, SetPhase(phase)));
    }

    /** Last statement of an epoch: only once it is closed and its leaves are stored. */
    method SetEpochFinalized(k: nat)
      requires Valid() && k < |world| && Closed(world[k]) && world[k].row.Some?
      requires Paying(k, world[k].row.value.plan, world[k].chain.value.total, world[k].chain.value.payouts)
      requires world[k].leaves == ClaimTable(k, Remainder(world[k].row.value.plan, Wallets(world[k].chain.value.payouts)))
      requires Recorded(k, world[k].chain.value.payouts)
      modifies `world, `run
      ensures Valid() && old(run) <= run
      ensures world == old(world)[k := old(world)[k].(row := Some(old(world)[k].row.value.(phase := Finalized)))]
    {
      Make(Move(k, SetPhase(Finalized)));
    }

    method ListEpoch(k: nat)
      requires Valid() && k < |world| && world[k].chain.Some?
      modifies `world, `run
      ensures Valid() && old(run) <= run
      ensures world == old(world)[k := old(world)[k].(listed := true)]
    {
      Make(Move(k, InsertEpoch));
    }

    method RecordPayout(k: nat, it: Item)
      requires Valid() && k < |world| && world[k].chain.Some? && it in world[k].chain.value.payouts
      modifies `world, `run
      ensures Valid() && old(run) <= run && Quiet(old(world), world)
      ensures var rows := old(world)[k].payouts;
        world == old(world)[k := old(world)[k].(payouts := if it.wallet in Wallets(rows) then rows else rows + [it])]
      ensures it.wallet in Wallets(world[k].payouts)
    {
      var m := Move(k, Action.RecordPayout(it));
      RunKeeps(run, |run| - 1);
      QuietStep(world, m);
      Make(m);
      AppendWallet(old(world)[k].payouts, it);
    }

    /** Writes the rows of `merkle_leaves` in one SQL transaction. */
    method InsertMerkleLeaves(k: nat, t: EpochTree)
      requires Valid() && k < |world| && Closed(world[k]) && world[k].row.Some?
      requires Paying(k, world[k].row.value.plan, world[k].chain.value.total, world[k].chain.value.payouts)
      requires t.entries != [] && t.entries == Remainder(world[k].row.value.plan, Wallets(world[k].chain.value.payouts))
      requires t.tree.layers == Layers(LeafDigests(EpochKey(k), t.entries))
      modifies `world, `run
      ensures Valid() && old(run) <= run
      ensures world == old(world)[k := old(world)[k].(leaves := ClaimTable(k, t.entries))]
    {
      Sound(k);
      RemainderAscends(world[k].row.value.plan, Wallets(world[k].chain.value.payouts));
      var rows := LeafRows(k, t);
      InsertLeavesKeeps(k, world[k], rows);
      Make(Move(k, InsertLeaves(rows)));
    }

    // ----- transactions -----

    /** Sends `open_epoch` for the plan in the row. */
    method SendOpenEpoch(k: nat, sent: Sent)
      requires Valid() && k < |world| && MoveAllowed(world, Move(k, SendOpen(sent)))
      modifies `world, `run
      ensures Valid() && old(run) <= run
      ensures world == old(world)[k := old(world)[k].(opens := old(world)[k].opens + {sent})]
    {
      Make(Move(k, SendOpen(sent)));
    }

    /** The transaction lands, and the keeper sees that it did. */
    method LandOpenEpoch(k: nat, sent: Sent)
      requires Valid() && k < |world| && sent in world[k].opens && world[k].chain.None?
      modifies `world, `run
      ensures Valid() && old(run) <= run
      ensures world == old(world)[k := old(world)[k].(
        chain := Some(NewEpoch(sent.open)), origin := old(world)[k].origin.(landed := Some(sent.save), seen := true))]
    {
      Make(Move(k, LandOpen(sent)));
      Make(Move(k, SeeOpen));
    }

    /** Pushes one chunk. `false` when the program rejects it, which leaves everything as it was. */
    method PushPayouts(k: nat, items: seq<Item>, capBps: nat) returns (landed: bool)
      requires Valid() && k < |world| && world[k].chain.Some? && MoveAllowed(world, Move(k, Push(items, capBps)))
      modifies `world, `run
      ensures Valid() && old(run) <= run
      ensures landed == PushAccepted(old(world)[k].chain.value, items, capBps)
      ensures landed ==> world == old(world)[k := old(world)[k].(chain := Some(old(world)[k].chain.value.(
        pushed := old(world)[k].chain.value.pushed + Sum(items), payouts := old(world)[k].chain.value.payouts + items)))]
      ensures !landed ==> world == old(world)
    {
      landed := PushAccepted(world[k].chain.value, items, capBps);
      if landed {
        Make(Move(k, Push(items, capBps)));
      }
    }

    method SendFinalizeEpoch(k: nat, final: FinalMsg)
      requires Valid() && k < |world| && MoveAllowed(world, Move(k, SendFinalize(final)))
      modifies `world, `run
      ensures Valid() && old(run) <= run
      ensures world == old(world)[k := old(world)[k].(finals := old(world)[k].finals + {final})]
    {
      Make(Move(k, SendFinalize(final)));
    }

    /** `false` when the program rejects it. */
    method LandFinalizeEpoch(k: nat, final: FinalMsg) returns (landed: bool)
      requires Valid() && k < |world| && final in world[k].finals && world[k].chain.Some?
      modifies `world, `run
      ensures Valid() && old(run) <= run
      ensures landed == FinalizeAccepted(old(world)[k].chain.value, final)
      ensures landed ==> world == old(world)[k := old(world)[k].(chain := Some(old(world)[k].chain.value.(
        finalized := true, root := final.root, merkleTotal := final.merkleTotal)))]
      ensures !landed ==> world == old(world)
    {
      landed := FinalizeAccepted(world[k].chain.value, final);
      if landed {
        Make(Move(k, LandFinalize(final)));
      }
    }

    // ----- the cycle (payouts.ts) -----

    /** Stores the leaves, if there are any: the stored rows are then those of `rest`. */
    method StoreLeaves(k: nat, ghost rest: seq<Item>, tree: Option<EpochTree>) returns (r: Async<()>)
      requires Valid() && k < |world| && Closed(world[k]) && world[k].row.Some?
      requires Paying(k, world[k].row.value.plan, world[k].chain.value.total, world[k].chain.value.payouts)
      requires rest == Remainder(world[k].row.value.plan, Wallets(world[k].chain.value.payouts))
      requires tree.None? <==> rest == []
      requires tree.Some? ==> tree.value.entries == rest && tree.value.tree.layers == Layers(LeafDigests(EpochKey(k), rest))
      modifies this
      ensures Valid() && old(run) <= run && old(mishaps) <= mishaps && |world| == |old(world)|
      ensures Quiet(old(world), world[k := world[k].(leaves := old(world)[k].leaves)]) // nothing else changes
      ensures r == Done(()) || (r == Stopped(Crashed) && mishaps > old(mishaps))
      ensures r.Done? ==> world[k].leaves == ClaimTable(k, rest)
    {
      if tree.None? {
        Sound(k);
        NothingToStore(k, world[k]);
        return Done(());
      }
      var _ :- Await();
      ghost var before := world;
      InsertMerkleLeaves(k, tree.value);
      assert before == world[k := world[k].(leaves := before[k].leaves)];
      return Done(());
    }

    /** Stores the leaves, then marks the epoch finalized. */
    method WriteFinalized(k: nat, ghost rest: seq<Item>, tree: Option<EpochTree>) returns (r: Async<()>)
      requires Valid() && k < |world| && Closed(world[k]) && world[k].row.Some?
      requires Paying(k, world[k].row.value.plan, world[k].chain.value.total, world[k].chain.value.payouts)
      requires rest == Remainder(world[k].row.value.plan, Wallets(world[k].chain.value.payouts))
      requires Recorded(k, world[k].chain.value.payouts)
      requires tree.None? <==> rest == []
      requires tree.Some? ==> tree.value.entries == rest && tree.value.tree.layers == Layers(LeafDigests(EpochKey(k), rest))
      modifies this
      ensures Valid() && old(run) <= run && old(mishaps) <= mishaps && |world| == |old(world)|
      ensures r == Done(()) || (r == Stopped(Crashed) && mishaps > old(mishaps))
      ensures r.Done? ==> Settled(k) && world[k].row.value.plan == old(world[k].row.value.plan)
      ensures Closed(world[k]) && Snapshot(world[k], old(world[k].chain.value)) && SameSeen(old(world), world)
    {
      var _ :- StoreLeaves(k, rest, tree);
      var _ :- Await();
      // markEpochFinalized: columns of `epochs` only
      var _ :- Await();
      SetEpochFinalized(k);
      return Done(());
    }

    /** The next chunk may be sent, and will be accepted unless the epoch is already closed. */
    lemma ChunkReady(k: nat, plan: seq<Item>, total: nat, paid: seq<Item>, pushable: seq<Item>, merkle: seq<Item>, i: nat, j: nat, capBps: nat)
      requires Valid() && SplitOf(plan, paid, pushable, merkle)
      requires i <= j <= |pushable| && j - i <= MAX_PUSH_ITEMS
      requires Paying(k, plan, total, paid + pushable[..i])
      requires Sum(paid) + Sum(pushable) <= PushCap(total, capBps)
      ensures MoveAllowed(world, Move(k, Push(pushable[i..j], capBps)))
      ensures !world[k].chain.value.finalized ==> PushAccepted(world[k].chain.value, pushable[i..j], capBps)
    {
      Sound(k);
      ChunkFits(world[k], k, paid, pushable, merkle, i, j, capBps);
    }

    /** Waits, then records one push. */
    method RecordNext(k: nat, it: Item) returns (r: Async<()>)
      requires Valid() && k < |world| && world[k].chain.Some? && it in world[k].chain.value.payouts
      modifies this
      ensures Valid() && old(run) <= run && old(mishaps) <= mishaps && Quiet(old(world), world)
      ensures r == Done(()) || (r == Stopped(Crashed) && mishaps > old(mishaps))
      ensures r.Done? ==> it.wallet in Wallets(world[k].payouts)
    {
      var _ :- Await();
      ghost var before := world;
      RecordPayout(k, it);
      QuietTransitive(old(world), before, world);
      return Done(());
    }

    method RecordChunk(k: nat, chunk: seq<Item>) returns (r: Async<()>)
      requires Valid() && k < |world| && world[k].chain.Some? && Within(chunk, world[k].chain.value.payouts)
      modifies this
      ensures Valid() && old(run) <= run && old(mishaps) <= mishaps && Quiet(old(world), world)
      ensures r == Done(()) || (r == Stopped(Crashed) && mishaps > old(mishaps))
      ensures r.Done? ==> Recorded(k, chunk)
    {
      for c := 0 to |chunk|
        invariant Valid() && old(run) <= run && old(mishaps) <= mishaps && Quiet(old(world), world)
        invariant Recorded(k, chunk[..c])
      {
        ghost var before := world;
        WalletsOneMore(chunk, c);
        var recorded := RecordNext(k, chunk[c]);
        QuietTransitive(old(world), before, world);
        var _ :- recorded;
      }
      assert chunk[..|chunk|] == chunk;
      return Done(());
    }

    /** Sends one chunk and records it once it has landed. */
    method SendItems(k: nat, ghost plan: seq<Item>, total: nat, ghost paid: seq<Item>, pushable: seq<Item>, ghost merkle: seq<Item>,
                     i: nat, j: nat, maxPushBps: nat)
      returns (r: Async<()>)
      requires Valid() && SplitOf(plan, paid, pushable, merkle)
      requires i <= j <= |pushable| && j - i <= MAX_PUSH_ITEMS
      requires Paying(k, plan, total, paid + pushable[..i]) && Recorded(k, paid + pushable[..i])
      requires Sum(paid) + Sum(pushable) <= PushCap(total, maxPushBps)
      modifies this
      ensures Valid() && old(run) <= run && old(mishaps) <= mishaps
      ensures r.Done? ==> Paying(k, plan, total, paid + pushable[..j]) && Recorded(k, paid + pushable[..j])
      ensures r.Stopped? ==> (r.why.Crashed? && mishaps > old(mishaps)) || r.why.AlreadyClosed?
      ensures r.Stopped? && r.why.AlreadyClosed? ==> k < |world| && Closed(world[k])
    {
      var _ :- Await();
      ChunkReady(k, plan, total, paid, pushable, merkle, i, j, maxPushBps);
      var landed := PushPayouts(k, pushable[i..j], maxPushBps);
      if !landed {
        return Stopped(AlreadyClosed);
      }
      NextChunk(paid, pushable, i, j);
      var _ :- RecordChunk(k, pushable[i..j]);
      return Done(());
    }

    /** The chunk that begins at `i`: 12 pushes, or all that are left. */
    method SendChunk(k: nat, ghost plan: seq<Item>, total: nat, ghost paid: seq<Item>, pushable: seq<Item>, ghost merkle: seq<Item>,
                     i: nat, maxPushBps: nat)
      returns (r: Async<()>)
      requires Valid() && SplitOf(plan, paid, pushable, merkle) && i <= |pushable|
      requires Paying(k, plan, total, paid + pushable[..i]) && Recorded(k, paid + pushable[..i])
      requires Sum(paid) + Sum(pushable) <= PushCap(total, maxPushBps)
      modifies this
      ensures Valid() && old(run) <= run && old(mishaps) <= mishaps
      ensures var j := if i + 12 < |pushable| then i + 12 else |pushable|;
        r.Done? ==> Paying(k, plan, total, paid + pushable[..j]) && Recorded(k, paid + pushable[..j])
      ensures r.Stopped? ==> (r.why.Crashed? && mishaps > old(mishaps)) || r.why.AlreadyClosed?
      ensures r.Stopped? && r.why.AlreadyClosed? ==> k < |world| && Closed(world[k])
    {
      var j := if i + MAX_PUSH_ITEMS < |pushable| then i + MAX_PUSH_ITEMS else |pushable|;
      r := SendItems(k, plan, total, paid, pushable, merkle, i, j, maxPushBps);
    }

    /** Sends the pushes in chunks of at most 12. */
    method PushAll(k: nat, ghost plan: seq<Item>, total: nat, ghost paid: seq<Item>, pushable: seq<Item>, ghost merkle: seq<Item>, maxPushBps: nat)
      returns (r: Async<()>)
      requires Valid() && Paying(k, plan, total, paid) && Recorded(k, paid) && SplitOf(plan, paid, pushable, merkle)
      requires pushable != [] ==> Sum(paid) + Sum(pushable) <= PushCap(total, maxPushBps)
      modifies this
      ensures Valid() && old(run) <= run && old(mishaps) <= mishaps
      ensures r.Done? ==> Paying(k, plan, total, paid + pushable) && Recorded(k, paid + pushable) && world[k].row.value.phase == Phase.Pushed
      ensures r.Stopped? ==> (r.why.Crashed? && mishaps > old(mishaps)) || r.why.AlreadyClosed?
      ensures r.Stopped? && r.why.AlreadyClosed? ==> k < |world| && Closed(world[k])
    {
      var i := 0;
      assert paid + pushable[..0] == paid;
      while i < |pushable|
        invariant 0 <= i <= |pushable|
        invariant Valid() && old(run) <= run && old(mishaps) <= mishaps && Paying(k, plan, total, paid + pushable[..i]) && Recorded(k, paid + pushable[..i])
      {
        var _ :- SendChunk(k, plan, total, paid, pushable, merkle, i, maxPushBps);
        i := if i + MAX_PUSH_ITEMS < |pushable| then i + MAX_PUSH_ITEMS else |pushable|;
      }
      assert pushable[..i] == pushable;
      r := MarkPushed(k, plan, total, paid + pushable);
    }

    /** The pushes, then the tree. */
    method PushThenClose(k: nat, plan: seq<Item>, total: nat, ghost paid: seq<Item>, pushable: seq<Item>, merkle: seq<Item>,
                         pushedTotal: nat, maxPushBps: nat)
      returns (r: Async<()>)
      requires Valid() && Paying(k, plan, total, paid) && Recorded(k, paid) && SplitOf(plan, paid, pushable, merkle)
      requires merkle == Remainder(plan, Wallets(paid + pushable)) && pushedTotal == Sum(paid + pushable)
      requires pushable != [] ==> Sum(paid) + Sum(pushable) <= PushCap(total, maxPushBps)
      modifies this
      ensures Valid() && old(run) <= run && old(mishaps) <= mishaps
      ensures r.Done? ==> Settled(k) && world[k].row.value.plan == plan
      ensures r.Done? ==>
        var e := world[k].chain.value; e.payouts == paid + pushable && e.pushed == pushedTotal && e.total == total
      ensures r.Stopped? ==> (r.why.Crashed? && mishaps > old(mishaps)) || r.why.AlreadyClosed?
      ensures r == Stopped(AlreadyClosed) ==> k < |world| && Closed(world[k])
    {
      var _ :- PushAll(k, plan, total, paid, pushable, merkle, maxPushBps);
      r := Finalize(k, total, plan, paid + pushable, merkle, pushedTotal);
    }

    /**
     Pays out what is left of the plan and closes the epoch. Every chunk that is sent is accepted, and so
     is the finalize, unless a finalize of an earlier cycle has already closed the epoch.
     */
    method PushAndFinalize(k: nat, acc: Epoch, plan: seq<Item>, alreadyPushed: seq<Item>, accounts: set<Key>, maxPushBps: nat)
      returns (r: Async<()>)
      requires Valid() && Paying(k, plan, acc.total, acc.payouts)
      requires acc.pushed == world[k].chain.value.pushed
      requires Wallets(alreadyPushed) == Wallets(acc.payouts) && Recorded(k, acc.payouts)
      modifies this
      ensures Valid() && old(run) <= run && old(mishaps) <= mishaps
      ensures r.Done? ==> Settled(k) && world[k].row.value.plan == plan
      ensures r.Done? ==> world[k].chain.value.total == acc.total && PaidByRule(world[k].chain.value, acc.payouts, plan, accounts, maxPushBps)
      ensures r.Stopped? ==> (r.why.Crashed? && mishaps > old(mishaps)) || r.why.AlreadyClosed?
      ensures r == Stopped(AlreadyClosed) ==> k < |world| && Closed(world[k])
    {
      PlanReady(k, plan, acc.total, acc.payouts);
      var _ :- Await();
      var pushCap := PushCap(acc.total, maxPushBps);
      var pushable, merkle, pushedTotal := SplitPlan(plan, acc, alreadyPushed, accounts, pushCap);
      r := PushThenClose(k, plan, acc.total, acc.payouts, pushable, merkle, pushedTotal, maxPushBps);
      if r.Done? {
        SplitPaysByRule(world[k].chain.value, acc.payouts, plan, pushable, merkle, accounts, maxPushBps);
      }
    }

    method MarkPushed(k: nat, ghost plan: seq<Item>, ghost total: nat, ghost paid: seq<Item>) returns (r: Async<()>)
      requires Valid() && Paying(k, plan, total, paid) && Recorded(k, paid)
      modifies this
      ensures Valid() && old(run) <= run && old(mishaps) <= mishaps
      ensures r.Done? ==> Paying(k, plan, total, paid) && Recorded(k, paid) && world[k].row.value.phase == Phase.Pushed
      ensures r.Stopped? ==> r.why.Crashed? && mishaps > old(mishaps)
    {
      var _ :- Await();
      SetEpochPhase(k, Phase.Pushed);
      return Done(());
    }

    lemma PlanReady(k: nat, plan: seq<Item>, total: nat, paid: seq<Item>)
      requires Valid() && Paying(k, plan, total, paid)
      ensures Ascending(plan) && Distinct(paid) && Within(paid, plan) && world[k].chain.value.pushed == Sum(paid)
    {
      Sound(k);
    }

    /** The finalize may be sent, and what it says fits in the epoch. */
    lemma FinalReady(k: nat, plan: seq<Item>, total: nat, paid: seq<Item>, merkle: seq<Item>)
      requires Valid() && Paying(k, plan, total, paid) && world[k].row.value.phase == Phase.Pushed && merkle == Remainder(plan, Wallets(paid))
      ensures MoveAllowed(world, Move(k, SendFinalize(FinalMsg(RootOf(EpochKey(k), merkle), Sum(merkle)))))
      ensures Sum(merkle) + Sum(paid) <= total && world[k].chain.value.pushed == Sum(paid)
      ensures SortByWallet(merkle) == merkle && Distinct(merkle) && FitU64(merkle)
    {
      Sound(k);
      FinalIs(k, world[k], plan, total, paid);
      RemainderMakesTree(plan, total, Wallets(paid));
    }

    /** Second half of pushAndFinalize: the tree over the rest, `finalize_epoch`, the rows. */
    method Finalize(k: nat, total: nat, plan: seq<Item>, ghost paid: seq<Item>, merkle: seq<Item>, pushedTotal: nat)
      returns (r: Async<()>)
      requires Valid() && Paying(k, plan, total, paid) && Recorded(k, paid) && world[k].row.value.phase == Phase.Pushed
      requires merkle == Remainder(plan, Wallets(paid)) && pushedTotal == Sum(paid)
      modifies this
      ensures Valid() && old(run) <= run && old(mishaps) <= mishaps
      ensures r.Done? ==> Settled(k) && world[k].row.value.plan == plan
      ensures r.Done? ==>
        var e := world[k].chain.value; e.payouts == paid && e.pushed == pushedTotal && e.total == total
      ensures r.Stopped? ==> (r.why.Crashed? && mishaps > old(mishaps)) || r.why.AlreadyClosed?
      ensures r == Stopped(AlreadyClosed) ==> k < |world| && Closed(world[k])
    {
      FinalReady(k, plan, total, paid, merkle);
      var entries := SortByWallet(merkle);
      var tree, final := FinalMessage(k, entries);
      if final.merkleTotal > total - pushedTotal {
        return Stopped(MerkleTooLarge);
      }
      var _ :- CloseEpoch(k, plan, total, paid, final);
      r := WriteFinalized(k, entries, tree);
    }

    /** `finalize_epoch`; rejected only when a finalize of an earlier cycle has closed the epoch meanwhile. */
    method CloseEpoch(k: nat, ghost plan: seq<Item>, ghost total: nat, ghost paid: seq<Item>, final: FinalMsg) returns (r: Async<()>)
      requires Valid() && Paying(k, plan, total, paid) && Recorded(k, paid) && MoveAllowed(world, Move(k, SendFinalize(final)))
      requires final.merkleTotal + world[k].chain.value.pushed <= total
      modifies this
      ensures Valid() && old(run) <= run && old(mishaps) <= mishaps
      ensures r.Done? ==> Paying(k, plan, total, paid) && Recorded(k, paid)
      ensures r.Done? ==> Closed(world[k]) && world[k].chain.value.pushed == old(world)[k].chain.value.pushed
      ensures r.Stopped? ==> (r.why.Crashed? && mishaps > old(mishaps)) || r.why.AlreadyClosed?
      ensures r == Stopped(AlreadyClosed) ==> k < |world| && Closed(world[k])
    {
      SendFinalizeEpoch(k, final);
      var _ :- Await();
      var landed := LandFinalizeEpoch(k, final);
      if !landed {
        return Stopped(AlreadyClosed);
      }
      return Done(());
    }

    /**
     The wallets already pushed, from the table if its sum agrees with the chain and otherwise from the
     chain's events, of which the oldest `unread` do not fit the page that is read. The answer is exactly the
     landed pushes, or a failure; with the whole history on the page it is never a failure.
     */
    method ReconcilePushed(k: nat, acc: Epoch, unread: nat) returns (r: Async<seq<Item>>)
      requires Valid() && k < |world| && Snapshot(world[k], acc)
      modifies this
      ensures Valid() && old(run) <= run && old(mishaps) <= mishaps && Quiet(old(world), world)
      ensures r.Done? ==> KnownPushes(r.value, acc.payouts) && Wallets(r.value) == Wallets(acc.payouts) && Recorded(k, acc.payouts)
      ensures r.Stopped? ==> (r.why.Crashed? && mishaps > old(mishaps)) || r.why.Unreconciled?
      ensures OldPushesRecorded(old(world)[k], acc.payouts, unread) ==> r != Stopped(Unreconciled)
    {
      PushesKnown(k, acc);
      var _ :- Await();
      PushesKnown(k, acc);
      var pushed := world[k].payouts;
      if Sum(pushed) == acc.pushed {
        EqualSumsEqualWallets(pushed, acc.payouts);
        return Done(pushed);
      }
      ghost var before := world;
      r := ReadBack(k, acc, pushed, unread);
      QuietTransitive(old(world), before, world);
    }

    /** Second half of reconcilePushed: the table is incomplete, so the chain's events are read. */
    method ReadBack(k: nat, acc: Epoch, known: seq<Item>, unread: nat) returns (r: Async<seq<Item>>)
      requires Valid() && k < |world| && Snapshot(world[k], acc)
      requires KnownPushes(known, acc.payouts) && Recorded(k, known)
      modifies this
      ensures Valid() && old(run) <= run && old(mishaps) <= mishaps && Quiet(old(world), world)
      ensures r.Done? ==> KnownPushes(r.value, acc.payouts) && Wallets(r.value) == Wallets(acc.payouts) && Recorded(k, acc.payouts)
      ensures r.Stopped? ==> (r.why.Crashed? && mishaps > old(mishaps)) || r.why.Unreconciled?
      ensures unread == 0 || Wallets(acc.payouts[..if unread <= |acc.payouts| then unread else |acc.payouts|]) <= Wallets(known) ==>
        r != Stopped(Unreconciled)
    {
      var _ :- Await();
      PushesKnown(k, acc);
      ghost var before := world;
      var page := if unread <= |acc.payouts| then unread else |acc.payouts|;
      var read := ReadPayoutEvents(k, acc, known, page);
      QuietTransitive(old(world), before, world);
      var pushed :- read;
      EqualSumsEqualWallets(pushed, acc.payouts);
      if Sum(pushed) != acc.pushed {
        if Wallets(acc.payouts[..page]) <= Wallets(known) {
          NothingMissing(Wallets(known), acc.payouts, page);
          AllEventsKnown(pushed, acc.payouts);
        }
        return Stopped(Unreconciled);
      }
      return Done(pushed);
    }

    /** Adds the pushes found in the events on the page to the known ones, recording each in the table. */
    method ReadPayoutEvents(k: nat, acc: Epoch, known: seq<Item>, unread: nat) returns (r: Async<seq<Item>>)
      requires Valid() && k < |world| && Snapshot(world[k], acc) && unread <= |acc.payouts|
      requires KnownPushes(known, acc.payouts) && Recorded(k, known)
      modifies this
      ensures Valid() && old(run) <= run && old(mishaps) <= mishaps && Quiet(old(world), world)
      ensures r.Done? ==> KnownPushes(r.value, acc.payouts) && Recorded(k, r.value)
      ensures r.Done? ==> Wallets(r.value) == Wallets(known) + Wallets(acc.payouts[unread..])
      ensures r.Stopped? ==> r.why.Crashed? && mishaps > old(mishaps)
    {
      var pushed, events := known, acc.payouts[unread..];
      for i := 0 to |events|
        invariant Valid() && old(run) <= run && old(mishaps) <= mishaps && Quiet(old(world), world)
        invariant KnownPushes(pushed, acc.payouts) && Recorded(k, pushed)
        invariant Wallets(pushed) == Wallets(known) + Wallets(events[..i])
      {
        ghost var before := world;
        WalletsOneMore(events, i);
        assert events[i] == acc.payouts[unread + i];
        var read := ReadPayoutEvent(k, acc, pushed, events[i]);
        QuietTransitive(old(world), before, world);
        pushed :- read;
      }
      assert events[..|events|] == events;
      return Done(pushed);
    }

    method ReadPayoutEvent(k: nat, acc: Epoch, known: seq<Item>, e: Item) returns (r: Async<seq<Item>>)
      requires Valid() && k < |world| && Snapshot(world[k], acc) && e in acc.payouts
      requires KnownPushes(known, acc.payouts) && Recorded(k, known)
      modifies this
      ensures Valid() && old(run) <= run && old(mishaps) <= mishaps && Quiet(old(world), world)
      ensures r.Done? ==> KnownPushes(r.value, acc.payouts) && Recorded(k, r.value)
      ensures r.Done? ==> Wallets(r.value) == Wallets(known) + {e.wallet}
      ensures r.Stopped? ==> r.why.Crashed? && mishaps > old(mishaps)
    {
      if e.wallet in Wallets(known) {
        return Done(known);
      }
      KnowOneMore(known, acc.payouts, e);
      var _ :- RecordNext(k, e);
      return Done(known + [e]);
    }

    lemma PushesKnown(k: nat, acc: Epoch)
      requires Valid() && k < |world| && Snapshot(world[k], acc)
      ensures KnownPushes(world[k].payouts, acc.payouts)
      ensures Distinct(acc.payouts) && Positive(acc.payouts) && acc.pushed == Sum(acc.payouts)
    {
      Sound(k);
      WithinFacts(acc.payouts, world[k].row.value.plan);
    }

    /**
     The chain says closed but the row does not: rebuilds the tree from plan minus pushed. It always
     reproduces the root on chain, so the leaves are always stored once the pushes are known.
     */
    method RepairFinalizedBookkeeping(k: nat, acc: Epoch, unread: nat) returns (r: Async<()>)
      requires Valid() && k < |world| && Snapshot(world[k], acc) && acc.finalized && world[k].origin.seen
      modifies this
      ensures Valid() && old(run) <= run && old(mishaps) <= mishaps
      ensures k < |world| && Closed(world[k]) && SameSeen(old(world), world)
      ensures r.Done? ==> Settled(k)
      ensures r.Stopped? ==> (r.why.Crashed? && mishaps > old(mishaps)) || r.why.Unreconciled?
      ensures OldPushesRecorded(old(world)[k], acc.payouts, unread) ==> r != Stopped(Unreconciled)
    {
      var _ :- Await();
      var progress := world[k].row;
      ClosedFacts(k, acc);
      if progress.None? || progress.value.phase == Finalized {
        return Done(());
      }
      var pushed :- ReconcilePushed(k, acc, unread);
      ClosedFacts(k, acc);
      var merkle := SortByWallet(Remainder(progress.value.plan, Wallets(pushed)));
      var tree := TreeOf(k, merkle);
      var root := if tree.Some? then tree.value.tree.root else ZERO_ROOT;
      if root != acc.root {
        return Stopped(RootMismatch);
      }
      r := WriteFinalized(k, merkle, tree);
    }

    lemma ClosedFacts(k: nat, acc: Epoch)
      requires Valid() && k < |world| && Snapshot(world[k], acc) && acc.finalized
      ensures world[k].row.Some? && world[k].row.value.phase != Planned && world[k].listed
      ensures var plan := world[k].row.value.plan; var rest := Remainder(plan, Wallets(acc.payouts));
        && world[k].row.value.total == world[k].chain.value.total
        && SortByWallet(rest) == rest && Distinct(rest) && FitU64(rest)
        && acc.root == RootOf(EpochKey(k), rest)
    {
      Sound(k);
      RemainderMakesTree(world[k].row.value.plan, world[k].row.value.total, Wallets(acc.payouts));
    }

    /**
     Finishes an epoch that is open on chain, with the stored plan if its total is the one on chain, and
     otherwise (an earlier `open_epoch` landed after a re-plan) with one computed afresh. It pays the allocation
     the epoch was opened with exactly when the row it reads has that plan, or what it reads now gives the same
     shares as what was read for the open. A row with the window on chain is enough.
     */
    method ResumeEpoch(k: nat, acc: Epoch, now: Readings) returns (r: Async<()>)
      requires Valid() && k < |world| && Snapshot(world[k], acc) && !Closed(world[k]) && world[k].origin.seen
      modifies this
      ensures Valid() && old(run) <= run && old(mishaps) <= mishaps
      ensures r.Done? ==> Settled(k)
      ensures r.Done? && StoredFor(old(world)[k], acc) ==> world[k].row.value.plan == old(world)[k].row.value.plan
      ensures r.Done? && !StoredFor(old(world)[k], acc) ==>
        acc.startTs < acc.endTs && world[k].row.value.plan == PlanOf(now.basis, acc.startTs, acc.endTs, acc.total)
      ensures r.Done? && StoredFor(old(world)[k], acc) ==> (PaysItsAllocation(world[k]) <==> PaysItsAllocation(old(world)[k]))
      ensures r.Done? && !StoredFor(old(world)[k], acc) ==>
        && world[k].origin.landed.Some? && world[k].origin.landed.value < |world[k].origin.saves|
        && (PaysItsAllocation(world[k]) <==> SameShares(OpenedBasis(world[k]), now.basis, acc.startTs, acc.endTs, acc.total))
      ensures r.Done? && old(world)[k].origin.current.Some? && WindowsDiffer(old(world)[k].origin.saves) && WindowMatches(old(world)[k]) ==>
        PaysItsAllocation(world[k])
      ensures r.Done? ==>
        PaidByRule(world[k].chain.value, acc.payouts, world[k].row.value.plan, now.accounts, now.maxPushBps)
      ensures r.Stopped? ==> (r.why.Crashed? && mishaps > old(mishaps)) || r.why.AlreadyClosed? || r.why.Unreconciled?
      ensures r == Stopped(AlreadyClosed) ==> k < |world| && Closed(world[k])
      ensures OldPushesRecorded(old(world)[k], acc.payouts, now.unread) ==> r != Stopped(Unreconciled)
    {
      ghost var before := run;
      OpenFacts(k, acc);
      r := AgreeAndPay(k, acc, now);
      if r.Done? {
        ResumedAllocation(before, k, acc, now.basis);
      }
    }

    /** Which allocation a resumed epoch pays, by the plan it now has. */
    lemma ResumedAllocation(before: seq<World>, k: nat, acc: Epoch, basis: Basis)
      requires Valid() && IsRun(before) && before <= run && k < |before[|before| - 1]| && k < |world|
      requires var s := before[|before| - 1][k];
        && Snapshot(s, acc) && s.origin.seen && s.row.Some? && world[k].row.Some?
        && if StoredFor(s, acc) then world[k].row.value.plan == s.row.value.plan
        else acc.startTs < acc.endTs && world[k].row.value.plan == PlanOf(basis, acc.startTs, acc.endTs, acc.total)
      ensures var s := before[|before| - 1][k];
        && (StoredFor(s, acc) ==> (PaysItsAllocation(world[k]) <==> PaysItsAllocation(s)))
        && (s.origin.current.Some? && WindowsDiffer(s.origin.saves) && WindowMatches(s) ==> PaysItsAllocation(world[k]))
      ensures !StoredFor(before[|before| - 1][k], acc) ==>
        && world[k].origin.landed.Some? && world[k].origin.landed.value < |world[k].origin.saves|
        && (PaysItsAllocation(world[k]) <==> SameShares(OpenedBasis(world[k]), basis, acc.startTs, acc.endTs, acc.total))
    {
      OriginStays(before, k);
      if !StoredFor(before[|before| - 1][k], acc) {
        AllocationByShares(run, |run| - 1, k, basis);
      }
    }

    /** Both halves: the plan to finish the epoch with, and paying it out. */
    method AgreeAndPay(k: nat, acc: Epoch, now: Readings) returns (r: Async<()>)
      requires Valid() && k < |world| && Snapshot(world[k], acc) && !Closed(world[k]) && world[k].origin.seen
      modifies this
      ensures Valid() && old(run) <= run && old(mishaps) <= mishaps
      ensures r.Done? ==> Settled(k)
      ensures r.Done? ==>
        if StoredFor(old(world)[k], acc) then world[k].row.value.plan == old(world)[k].row.value.plan
        else acc.startTs < acc.endTs && world[k].row.value.plan == PlanOf(now.basis, acc.startTs, acc.endTs, acc.total)
      ensures r.Done? ==> PaidByRule(world[k].chain.value, acc.payouts, world[k].row.value.plan, now.accounts, now.maxPushBps)
      ensures r.Stopped? ==> (r.why.Crashed? && mishaps > old(mishaps)) || r.why.AlreadyClosed? || r.why.Unreconciled?
      ensures r == Stopped(AlreadyClosed) ==> k < |world| && Closed(world[k])
      ensures OldPushesRecorded(old(world)[k], acc.payouts, now.unread) ==> r != Stopped(Unreconciled)
    {
      var plan :- AgreePlan(k, acc, now);
      r := PayAgreed(k, acc, plan, now);
    }

    /** Second half of resumeEpoch: who has been pushed to already, then the rest of the plan. */
    method PayAgreed(k: nat, acc: Epoch, plan: seq<Item>, now: Readings) returns (r: Async<()>)
      requires Valid() && Paying(k, plan, acc.total, acc.payouts) && Snapshot(world[k], acc)
      modifies this
      ensures Valid() && old(run) <= run && old(mishaps) <= mishaps
      ensures r.Done? ==> Settled(k) && world[k].row.value.plan == plan
      ensures r.Done? ==> PaidByRule(world[k].chain.value, acc.payouts, plan, now.accounts, now.maxPushBps)
      ensures r.Stopped? ==> (r.why.Crashed? && mishaps > old(mishaps)) || r.why.AlreadyClosed? || r.why.Unreconciled?
      ensures r == Stopped(AlreadyClosed) ==> k < |world| && Closed(world[k])
      ensures OldPushesRecorded(old(world)[k], acc.payouts, now.unread) ==> r != Stopped(Unreconciled)
    {
      var pushed :- ReconcilePushed(k, acc, now.unread);
      r := PushAndFinalize(k, acc, plan, pushed, now.accounts, now.maxPushBps);
    }

    /** Once seen on chain, it is settled whether an epoch pays the plan it was opened for. */
    lemma OriginStays(before: seq<World>, k: nat)
      requires Valid() && IsRun(before) && before <= run
      requires k < |before[|before| - 1]| && before[|before| - 1][k].origin.seen
      ensures k < |world| && (PaysItsOpen(world[k]) <==> PaysItsOpen(before[|before| - 1][k]))
      ensures before[|before| - 1][k].chain.Some? && world[k].chain.Some?
      ensures OpenOf(world[k].chain.value) == OpenOf(before[|before| - 1][k].chain.value)
      ensures var s := before[|before| - 1][k];
        && world[k].origin.landed == s.origin.landed && world[k].origin.saves == s.origin.saves
        && (s.origin.current.Some? && WindowsDiffer(s.origin.saves) && WindowMatches(s) ==> PaysItsAllocation(world[k]))
    {
      var s := before[|before| - 1][k];
      RunKeeps(run, |before| - 1);
      RunKeeps(run, |run| - 1);
      Frozen(run, |before| - 1, |run| - 1, k);
      if s.origin.current.Some? && WindowsDiffer(s.origin.saves) {
        WindowTells(k, s);
      }
    }

    /** First half of resumeEpoch: the plan to finish the epoch with, stored and marked opened. */
    method AgreePlan(k: nat, acc: Epoch, now: Readings) returns (r: Async<seq<Item>>)
      requires Valid() && k < |world| && Snapshot(world[k], acc) && !Closed(world[k]) && world[k].origin.seen
      modifies this
      ensures Valid() && old(run) <= run && old(mishaps) <= mishaps
      ensures r.Done? ==> Paying(k, r.value, acc.total, acc.payouts) && Snapshot(world[k], acc) && world[k].row.value.phase == Opened
      ensures r.Done? ==> Wallets(old(world)[k].payouts) <= Wallets(world[k].payouts)
      ensures r.Done? ==>
        if StoredFor(old(world)[k], acc) then r.value == old(world)[k].row.value.plan
        else acc.startTs < acc.endTs && r.value == PlanOf(now.basis, acc.startTs, acc.endTs, acc.total)
      ensures r.Stopped? ==> r.why.Crashed? && mishaps > old(mishaps)
    {
      OpenFacts(k, acc);
      var _ :- Await();
      OpenFacts(k, acc);
      var plan;
      if StoredFor(world[k], acc) {
        plan := world[k].row.value.plan;
      } else {
        plan :- PlanAfresh(k, acc, now);
      }
      var _ :- MarkOpened(k);
      return Done(plan);
    }

    /** No plan for this total is stored: computes one over the epoch's own window and stores it. */
    method PlanAfresh(k: nat, acc: Epoch, now: Readings) returns (r: Async<seq<Item>>)
      requires Valid() && k < |world| && Snapshot(world[k], acc) && world[k].origin.seen && !StoredFor(world[k], acc)
      modifies this
      ensures Valid() && old(run) <= run && old(mishaps) <= mishaps
      ensures r.Done? ==> k < |world| && Snapshot(world[k], acc) && world[k].origin.seen
      ensures r.Done? ==> Wallets(old(world)[k].payouts) <= Wallets(world[k].payouts)
      ensures r.Done? ==> world[k].row == Some(PlanRow(Planned, acc.startTs, acc.endTs, acc.total, r.value))
      ensures r.Done? ==> acc.startTs < acc.endTs && r.value == PlanOf(now.basis, acc.startTs, acc.endTs, acc.total)
      ensures r.Stopped? ==> r.why.Crashed? && mishaps > old(mishaps)
    {
      OpenFacts(k, acc);
      var recomputed := PlanNow(now, acc.startTs, acc.endTs, acc.total);
      var plan := if recomputed.Some? then recomputed.value else [];
      var _ :- Await();
      OpenFacts(k, acc);
      ReplaceEpochPlan(k, Save(PlanRow(Planned, acc.startTs, acc.endTs, acc.total, plan), now.basis));
      return Done(plan);
    }

    /** The epoch is on chain with the stored total: 'opened', and listed in `epochs`. */
    method MarkOpened(k: nat) returns (r: Async<()>)
      requires Valid() && k < |world| && world[k].row.Some? && world[k].chain.Some? && world[k].origin.seen
      requires world[k].row.value.phase != Finalized && world[k].row.value.total == world[k].chain.value.total
      modifies this
      ensures Valid() && old(run) <= run && old(mishaps) <= mishaps
      ensures r.Done? ==> Paying(k, old(world[k].row.value.plan), old(world[k].chain.value.total), old(world[k].chain.value.payouts))
      ensures r.Done? ==> Snapshot(world[k], old(world[k].chain.value)) && world[k].origin == old(world[k].origin)
      ensures r.Done? ==> world[k].row.value.phase == Opened
      ensures r.Done? ==> Wallets(old(world)[k].payouts) <= Wallets(world[k].payouts)
      ensures r.Stopped? ==> r.why.Crashed? && mishaps > old(mishaps)
    {
      var _ :- Await();
      SetEpochPhase(k, Opened);
      var _ :- Await();
      ListEpoch(k);
      return Done(());
    }

    lemma OpenFacts(k: nat, acc: Epoch)
      requires Valid() && k < |world| && Snapshot(world[k], acc)
      ensures world[k].row.Some?
      ensures world[k].row.value.phase != Planned ==> world[k].row.value.total == acc.total
      ensures world[k].row.value.phase == Finalized ==> Closed(world[k])
      ensures acc.startTs < acc.endTs && acc.total <= U64_MAX
      ensures k > 0 ==> Closed(world[k - 1])
    {
      Sound(k);
    }

    /** The epoch after `latest` has never been found on chain. */
    ghost predicate NextUnseen(latest: Option<(nat, Epoch)>)
      reads this
    {
      NextIndex(latest) <= |world| && !At(world, NextIndex(latest)).origin.seen
    }

    static function NextIndex(latest: Option<(nat, Epoch)>): nat {
      if latest.Some? then latest.value.0 + 1 else 0
    }

    static ghost function WindowStart(latest: Option<(nat, Epoch)>, now: Readings): int {
      if latest.Some? then latest.value.1.endTs else now.nowSec - now.feeCycleIntervalSec
    }

    /**
     Plans, opens and pays out the next epoch: the whole vault, from where the last epoch ended up to now, to
     everybody by the time-weighted balances read. `Done(Some(k))` when epoch `k` was opened and is settled;
     `Done(None)` exactly when there is nothing to do.
     */
    method OpenNewEpoch(latest: Option<(nat, Epoch)>, now: Readings) returns (r: Async<Option<nat>>)
      requires Valid() && NextUnseen(latest)
      requires latest.Some? ==> latest.value.0 < |world| && Snapshot(world[latest.value.0], latest.value.1) && latest.value.1.finalized
      modifies this
      ensures Valid() && old(run) <= run && old(mishaps) <= mishaps
      ensures r.Done? && r.value.Some? ==> r.value.value == NextIndex(latest) && Settled(r.value.value)
      ensures r.Done? && r.value.Some? ==> OpenedAsDue(r.value.value, world[r.value.value], WindowStart(latest, now), now)
      ensures r == Done(None) ==> NothingToOpen(WindowStart(latest, now), now)
      ensures NothingToOpen(WindowStart(latest, now), now) ==> r == Done(None) || (r == Stopped(Crashed) && mishaps > old(mishaps))
      ensures r.Stopped? ==> ((r.why.Crashed? || r.why.NotReadable?) && mishaps > old(mishaps)) || r.why.OpenRejected? || r.why.AlreadyClosed?
      ensures r.Stopped? ==> InTheWay(NextIndex(latest), r.why)
    {
      var _ :- Await();
      if now.vault == 0 || !now.worthIt {
        return Done(None);
      }
      var index := NextIndex(latest);
      var startTs := if latest.Some? then latest.value.1.endTs else now.nowSec - now.feeCycleIntervalSec;
      var endTs := now.nowSec;
      if endTs <= startTs {
        return Done(None);
      }
      r := PlanAndPay(index, OpenMsg(startTs, endTs, now.vault), now);
    }

    /** Why opening epoch `k` may fail with nothing gone wrong: a transaction sent earlier has opened or closed it meanwhile. */
    ghost predicate InTheWay(k: nat, why: Stop)
      reads this
    {
      && (why.OpenRejected? ==> k < |world| && world[k].chain.Some? && !world[k].origin.seen)
      && (why.AlreadyClosed? ==> k < |world| && Closed(world[k]))
    }

    /** Plans the shares of an epoch, opens it and pays it out; nothing to do exactly when there are no shares. */
    method PlanAndPay(index: nat, open: OpenMsg, now: Readings) returns (r: Async<Option<nat>>)
      requires Valid() && index <= |world| && !At(world, index).origin.seen && open.startTs < open.endTs && open.total <= U64_MAX
      requires index > 0 ==> Closed(world[index - 1]) && open.startTs == world[index - 1].chain.value.endTs
      modifies this
      ensures Valid() && old(run) <= run && old(mishaps) <= mishaps
      ensures r.Done? && r.value.Some? ==> r.value == Some(index) && Settled(index) && OpenOf(world[index].chain.value) == open
      ensures r.Done? && r.value.Some? ==>
        && PaysOnce(index, world[index], SharesFor(now.basis, open.startTs, open.endTs, open.total))
        && PaidByRule(world[index].chain.value, [], world[index].row.value.plan, now.accounts, now.maxPushBps)
      ensures r == Done(None) ==> PlanOf(now.basis, open.startTs, open.endTs, open.total) == []
      ensures PlanOf(now.basis, open.startTs, open.endTs, open.total) == [] ==> r == Done(None)
      ensures r.Stopped? ==> ((r.why.Crashed? || r.why.NotReadable?) && mishaps > old(mishaps)) || r.why.OpenRejected? || r.why.AlreadyClosed?
      ensures r.Stopped? ==> InTheWay(index, r.why)
    {
      var plan := PlanNow(now, open.startTs, open.endTs, open.total);
      if plan.None? {
        return Done(None);
      }
      ghost var shares := SharesFor(now.basis, open.startTs, open.endTs, open.total);
      r := OpenAndPay(index, open, plan.value, shares, now);
    }

    /** Saves the plan, opens the epoch, pays it out. */
    method OpenAndPay(index: nat, open: OpenMsg, plan: seq<Item>, ghost shares: seq<Item>, now: Readings) returns (r: Async<Option<nat>>)
      requires forall it: Item :: it.amount > 0 && it in shares ==> it in plan
      requires Valid() && index <= |world| && !At(world, index).origin.seen && open.startTs < open.endTs
      requires GoodPlan(plan, open.total) && plan == PlanOf(now.basis, open.startTs, open.endTs, open.total)
      requires index > 0 ==> Closed(world[index - 1]) && open.startTs == world[index - 1].chain.value.endTs
      modifies this
      ensures Valid() && old(run) <= run && old(mishaps) <= mishaps
      ensures r.Done? ==> r.value == Some(index) && Settled(index)
      ensures r.Done? ==> OpenOf(world[index].chain.value) == open && world[index].row.value.plan == plan && PaysItsOpen(world[index])
      ensures r.Done? ==> PaysOnce(index, world[index], shares)
      ensures r.Done? ==> PaidByRule(world[index].chain.value, [], plan, now.accounts, now.maxPushBps)
      ensures r.Stopped? ==> ((r.why.Crashed? || r.why.NotReadable?) && mishaps > old(mishaps)) || r.why.OpenRejected? || r.why.AlreadyClosed?
      ensures r.Stopped? ==> InTheWay(index, r.why)
    {
      var acc :- OpenPlanned(index, open, plan, now);
      ghost var before := run;
      var _ :- PushAndFinalize(index, acc, plan, [], now.accounts, now.maxPushBps);
      OriginStays(before, index);
      SettledPaysOnce(index, shares);
      return Done(Some(index));
    }

    lemma SettledPaysOnce(k: nat, shares: seq<Item>)
      requires Valid() && Settled(k)
      requires forall it: Item :: it.amount > 0 && it in shares ==> it in world[k].row.value.plan
      ensures PaysOnce(k, world[k], shares)
    {
      SharesPaidOnce(run, |run| - 1, k, shares);
    }

    /** The plan is stored before `open_epoch` is sent, and marked opened after it landed. */
    method OpenPlanned(index: nat, open: OpenMsg, plan: seq<Item>, now: Readings) returns (r: Async<Epoch>)
      requires Valid() && index <= |world| && !At(world, index).origin.seen && open.startTs < open.endTs
      requires GoodPlan(plan, open.total) && plan == PlanOf(now.basis, open.startTs, open.endTs, open.total)
      requires index > 0 ==> Closed(world[index - 1]) && open.startTs == world[index - 1].chain.value.endTs
      modifies this
      ensures Valid() && old(run) <= run && old(mishaps) <= mishaps
      ensures r.Done? ==> r.value.payouts == [] && OpenOf(r.value) == open
      ensures r.Done? ==> Paying(index, plan, r.value.total, []) && world[index].chain == Some(r.value) && world[index].row.value.phase == Opened
      ensures r.Done? ==> PaysItsOpen(world[index]) && world[index].origin.seen
      ensures r.Stopped? ==> ((r.why.Crashed? || r.why.NotReadable?) && mishaps > old(mishaps)) || r.why.OpenRejected?
      ensures r.Stopped? ==> InTheWay(index, r.why)
    {
      var _ :- PlanAndOpen(index, open, plan, now);
      var _ :- MarkOpened(index);
      var _ :- Await();
      var readable: bool := *;
      if !readable {
        mishaps := mishaps + 1;
        return Stopped(NotReadable);
      }
      return Done(world[index].chain.value);
    }

    method PlanAndOpen(index: nat, open: OpenMsg, plan: seq<Item>, now: Readings) returns (r: Async<()>)
      requires Valid() && index <= |world| && !At(world, index).origin.seen && open.startTs < open.endTs
      requires GoodPlan(plan, open.total) && plan == PlanOf(now.basis, open.startTs, open.endTs, open.total)
      requires index > 0 ==> Closed(world[index - 1]) && open.startTs == world[index - 1].chain.value.endTs
      modifies this
      ensures Valid() && old(run) <= run && old(mishaps) <= mishaps
      ensures r.Done? ==> index < |world| && world[index].row == Some(PlanRow(Planned, open.startTs, open.endTs, open.total, plan))
      ensures r.Done? ==> world[index].chain == Some(NewEpoch(open)) && PaysItsOpen(world[index]) && world[index].origin.seen
      ensures r.Stopped? ==> (r.why.Crashed? && mishaps > old(mishaps)) || r.why.OpenRejected?
      ensures r.Stopped? ==> InTheWay(index, r.why)
    {
      var _ :- Await();
      var row := PlanRow(Planned, open.startTs, open.endTs, open.total, plan);
      SaveEpochPlan(index, Save(row, now.basis));
      r := OpenStored(index, row, |world[index].origin.saves| - 1);
    }

    /** `open_epoch` for the plan in the row; rejected when an earlier one has landed meanwhile. */
    method OpenStored(index: nat, row: PlanRow, save: nat) returns (r: Async<()>)
      requires Valid() && index < |world| && world[index].row == Some(row) && world[index].origin.current == Some(save)
      requires !world[index].origin.seen
      requires row.startTs < row.endTs && row.total <= U64_MAX
      requires index > 0 ==> Closed(world[index - 1]) && row.startTs == world[index - 1].chain.value.endTs
      modifies this
      ensures Valid() && old(run) <= run && old(mishaps) <= mishaps
      ensures r.Done? ==> index < |world| && world[index].row == Some(row) && world[index].chain == Some(NewEpoch(OpenFor(row)))
      ensures r.Done? ==> PaysItsOpen(world[index]) && world[index].origin.seen
      ensures r.Stopped? ==> (r.why.Crashed? && mishaps > old(mishaps)) || r.why.OpenRejected?
      ensures r.Stopped? ==> InTheWay(index, r.why)
    {
      var _ :- Await();
      var sent := Sent(OpenFor(row), save);
      SendOpenEpoch(index, sent);
      var _ :- Await();
      if world[index].chain.Some? {
        return Stopped(OpenRejected);
      }
      LandOpenEpoch(index, sent);
      return Done(());
    }

    /** Reads the epoch account of one index. */
    method FetchEpoch(i: nat) returns (r: Async<Option<Epoch>>)
      requires Valid()
      modifies this
      ensures Valid() && old(run) <= run && old(mishaps) <= mishaps && Quiet(old(world), world)
      ensures r.Stopped? ==> r.why.Crashed? && mishaps > old(mishaps)
      ensures r.Done? ==> r.value == At(world, i).chain
      ensures r == Done(None) ==> At(old(world), i).chain.None? && !At(world, i).origin.seen
      ensures i + 1 < |world| ==> r != Done(None)
    {
      var _ :- Await();
      if i < |world| {
        Sound(i);
        LastIsKnown(run);
      }
      return Done(At(world, i).chain);
    }

    /** The newest epoch on chain. Every epoch on chain at the time of the call is at most this one. */
    method FindLatestOnChainEpoch() returns (r: Async<Option<(nat, Epoch)>>)
      requires Valid()
      modifies this
      ensures Valid() && old(run) <= run && old(mishaps) <= mishaps && Quiet(old(world), world)
      ensures r.Stopped? ==> r.why.Crashed? && mishaps > old(mishaps)
      ensures r.Done? && r.value.Some? ==> r.value.value.0 < |world| && world[r.value.value.0].chain == Some(r.value.value.1)
      ensures r.Done? ==> forall j :: 0 <= j < |old(world)| && old(world)[j].chain.Some? ==> r.value.Some? && j <= r.value.value.0
      ensures r.Done? ==> NextUnseen(r.value)
    {
      var idx :- ProbeForward();
      var i := idx;
      while i >= 0 && i >= idx - 2
        invariant Valid() && old(run) <= run && old(mishaps) <= mishaps && Quiet(old(world), world)
        invariant idx - 1 <= i <= idx && idx == |world| - 1
        invariant i < idx ==> idx >= 0 && old(world)[idx].chain.None? && !world[idx].origin.seen
      {
        ghost var before := world;
        var read := FetchEpoch(i);
        QuietTransitive(old(world), before, world);
        var acc :- read;
        if acc.Some? {
          return Done(Some((i, acc.value)));
        }
        i := i - 1;
      }
      return Done(None);
    }

    /** From here on the keeper knows that epoch to be on chain. */
    method SeeLatestEpoch() returns (r: Async<Option<(nat, Epoch)>>)
      requires Valid()
      modifies this
      ensures Valid() && old(run) <= run && old(mishaps) <= mishaps && |world| == |old(world)|
      ensures r.Stopped? ==> r.why.Crashed? && mishaps > old(mishaps)
      ensures r.Done? && r.value.Some? ==>
        var k := r.value.value.0; k < |world| && world[k].chain == Some(r.value.value.1) && world[k].origin.seen
      ensures r.Done? ==> forall j :: 0 <= j < |old(world)| && old(world)[j].chain.Some? ==> r.value.Some? && j <= r.value.value.0
      ensures r.Done? && r.value.Some? ==> PushesKept(old(world), world, r.value.value.0)
      ensures r.Done? ==> NextUnseen(r.value)
    {
      var latest :- FindLatestOnChainEpoch();
      if latest.Some? {
        Make(Move(latest.value.0, SeeOpen));
      }
      return Done(latest);
    }

    /** The highest index the tables know, moved up over epochs that are on chain without a row. */
    method ProbeForward() returns (r: Async<int>)
      requires Valid()
      modifies this
      ensures Valid() && old(run) <= run && old(mishaps) <= mishaps && Quiet(old(world), world)
      ensures r.Stopped? ==> r.why.Crashed? && mishaps > old(mishaps)
      ensures r.Done? ==> r.value == |world| - 1
    {
      var _ :- Await();
      ghost var seen := run;
      var idx := MaxKnown(world);
      while true
        invariant Valid() && old(run) <= run && old(mishaps) <= mishaps && Quiet(old(world), world)
        invariant MaxKnown(seen[|seen| - 1]) <= idx < |world|
        decreases |world| - idx
      {
        ghost var before := world;
        var read := FetchEpoch(idx + 1);
        QuietTransitive(old(world), before, world);
        var next :- read;
        if next.None? {
          break;
        }
        idx := idx + 1;
      }
      LastIsKnown(seen);
      return Done(idx);
    }

    /**
     One cycle for the pool: resume an open epoch, or repair the last one's rows and open the next. A cycle
     that completes leaves every epoch that was on chain when it began closed, and the newest of them with
     its rows in order, unless the repair failed (which does not keep the next epoch from opening). If that
     epoch had been closed before, or there is none, the next one is opened whenever it is due.
     */
    method RunPayoutsForPool(now: Readings) returns (r: Async<Cycle>)
      requires Valid()
      modifies this
      ensures Valid() && old(run) <= run && old(mishaps) <= mishaps
      ensures r.Done? ==> forall j :: 0 <= j < |old(world)| && old(world)[j].chain.Some? ==> r.value.latest.Some? && j <= r.value.latest.value
      ensures r.Done? && r.value.latest.Some? ==> r.value.latest.value < |world| && Closed(world[r.value.latest.value])
      ensures r.Done? && r.value.latest.Some? && r.value.repaired ==> Settled(r.value.latest.value)
      ensures r.Done? && !r.value.repaired ==>
        mishaps > old(mishaps) || (r.value.latest.Some? && PushMissing(old(world), r.value.latest.value, now.unread))
      ensures r.Done? && r.value.next.Some? ==>
        && Settled(r.value.next.value) && r.value.next.value == (if r.value.latest.Some? then r.value.latest.value + 1 else 0)
        && OpenedAsDue(r.value.next.value, world[r.value.next.value], NextStart(r.value.latest, now), now)
      ensures r.Done? && r.value.resumed ==> r.value.latest.Some? && !IsClosed(old(world), r.value.latest.value) && r.value.next.None?
      ensures r.Done? && !r.value.resumed && r.value.latest.Some? ==> NoPushes(old(world), world, r.value.latest.value)
      ensures r.Done? && !r.value.resumed && r.value.next.None? ==> NothingToOpen(NextStart(r.value.latest, now), now)
      ensures r.Stopped? ==>
        || ((r.why.Crashed? || r.why.NotReadable?) && mishaps > old(mishaps))
        || (r.why.OpenRejected? && exists k :: 0 <= k < |world| && world[k].chain.Some? && !world[k].origin.seen)
        || (r.why.AlreadyClosed? && exists k :: 0 <= k < |world| && IsClosed(world, k) && !IsClosed(old(world), k))
        || (r.why.Unreconciled? && exists k :: 0 <= k < |old(world)| && PushMissing(old(world), k, now.unread) && !IsClosed(old(world), k))
    {
      ghost var start := run;
      var latest :- SeeLatestEpoch();
      if latest.Some? && !latest.value.1.finalized {
        ClosedLater(start, latest.value.0);
        WasMissing(old(world), latest.value.0, now.unread);
        var resumed := ResumeEpoch(latest.value.0, latest.value.1, now);
        assert resumed == Stopped(AlreadyClosed) ==> IsClosed(world, latest.value.0);
        var _ :- resumed;
        return Done(Cycle(Some(latest.value.0), true, true, None));
      }
      if latest.Some? {
        WasMissing(old(world), latest.value.0, now.unread);
      }
      NotClosedYet(start, latest);
      r := RepairAndOpen(latest, now);
    }

    /** The rest of a cycle that found no open epoch. */
    method RepairAndOpen(latest: Option<(nat, Epoch)>, now: Readings) returns (r: Async<Cycle>)
      requires Valid() && NextUnseen(latest)
      requires latest.Some? ==>
        var k := latest.value.0;
        k < |world| && Snapshot(world[k], latest.value.1) && latest.value.1.finalized && world[k].origin.seen
      modifies this
      ensures Valid() && old(run) <= run && old(mishaps) <= mishaps
      ensures r.Done? ==> r.value.latest == (if latest.Some? then Some(latest.value.0) else None) && !r.value.resumed
      ensures r.Done? && latest.Some? ==> var k := latest.value.0;
        && k < |world| && Closed(world[k]) && world[k].chain.value.endTs == latest.value.1.endTs
        && world[k].chain.value.payouts == latest.value.1.payouts && (r.value.repaired ==> Settled(k))
      ensures r.Done? && !r.value.repaired ==>
        mishaps > old(mishaps) || (latest.Some? && PushMissing(old(world), latest.value.0, now.unread))
      ensures r.Done? && r.value.next.Some? ==>
        && r.value.next.value == NextIndex(latest) && Settled(r.value.next.value)
        && OpenedAsDue(r.value.next.value, world[r.value.next.value], WindowStart(latest, now), now)
      ensures r.Done? && r.value.next.None? ==> NothingToOpen(WindowStart(latest, now), now)
      ensures r.Stopped? ==> ((r.why.Crashed? || r.why.NotReadable?) && mishaps > old(mishaps)) || r.why.OpenRejected? || r.why.AlreadyClosed?
      ensures r.Stopped? ==> InTheWay(NextIndex(latest), r.why)
    {
      var repaired := true;
      if latest.Some? {
        repaired :- RepairLatest(latest.value.0, latest.value.1, now.unread);
      }
      ghost var before := run;
      var next :- OpenNewEpoch(latest, now);
      if latest.Some? {
        StaysSettled(before, latest.value.0);
      }
      return Done(Cycle(if latest.Some? then Some(latest.value.0) else None, false, repaired, next));
    }

    /** Where the window of the next epoch starts: at the end of the latest one, or one cycle ago when there is none. */
    ghost function NextStart(latest: Option<nat>, now: Readings): int
      requires latest.Some? ==> latest.value < |world| && world[latest.value].chain.Some?
      reads this
    {
      if latest.Some? then world[latest.value].chain.value.endTs else now.nowSec - now.feeCycleIntervalSec
    }

    /** What is closed stays closed, with its window, and what is settled stays settled. */
    lemma StaysSettled(before: seq<World>, k: nat)
      requires Valid() && IsRun(before) && before <= run && k < |before[|before| - 1]| && Closed(before[|before| - 1][k])
      ensures k < |world| && Closed(world[k]) && world[k].chain.value.endTs == before[|before| - 1][k].chain.value.endTs
      ensures world[k].chain.value.payouts == before[|before| - 1][k].chain.value.payouts
      ensures var s := before[|before| - 1][k]; s.row.Some? && s.row.value.phase == Finalized && s.listed ==> Settled(k)
    {
      Frozen(run, |before| - 1, |run| - 1, k);
    }

    lemma WasMissing(before: World, k: nat, unread: nat)
      requires PushesKept(before, world, k)
      ensures PushMissing(world, k, unread) ==> PushMissing(before, k, unread)
    {
      if PushMissing(world, k, unread) {
        MissingBefore(before, world, k, unread);
      }
    }

    /** An epoch that is open now was not closed before. */
    lemma ClosedLater(before: seq<World>, k: nat)
      requires Valid() && IsRun(before) && before <= run && k < |world| && !Closed(world[k])
      ensures !IsClosed(before[|before| - 1], k)
    {
      if IsClosed(before[|before| - 1], k) {
        StaysSettled(before, k);
        assert false;
      }
    }

    /** Nor was the one after the latest, which has never been found on chain. */
    lemma NotClosedYet(before: seq<World>, latest: Option<(nat, Epoch)>)
      requires Valid() && IsRun(before) && before <= run && NextUnseen(latest)
      ensures !IsClosed(before[|before| - 1], NextIndex(latest))
    {
      var k := NextIndex(latest);
      if IsClosed(before[|before| - 1], k) {
        StaysSettled(before, k);
        Sound(k);
        assert false;
      }
    }

    /** An error of the repair, also one thrown at an await of it, is logged and the cycle goes on. */
    method RepairLatest(k: nat, acc: Epoch, unread: nat) returns (r: Async<bool>)
      requires Valid() && k < |world| && Snapshot(world[k], acc) && acc.finalized && world[k].origin.seen
      modifies this
      ensures Valid() && old(run) <= run && old(mishaps) <= mishaps && |world| == |old(world)|
      ensures k < |world| && Snapshot(world[k], acc) && Closed(world[k]) && SameSeen(old(world), world)
      ensures r.Done? && r.value ==> Settled(k)
      ensures r == Done(false) ==> mishaps > old(mishaps) || !OldPushesRecorded(old(world)[k], acc.payouts, unread)
      ensures r.Stopped? ==> r.why.Crashed? && mishaps > old(mishaps)
    {
      ghost var before := run;
      var repair := RepairFinalizedBookkeeping(k, acc, unread);
      ClosedStays(before, run, k, acc);
      var dead: bool := *;
      if repair == Stopped(Crashed) && dead {
        return Stopped(Crashed);
      }
      return Done(repair.Done?);
    }

    /**
     The keeper's life: one cycle after another, each of which may die or fail anywhere, under changing readings.
     What a cycle reported as settled stays so.
     */
    method Live(readings: seq<Readings>) returns (outcomes: seq<Async<Cycle>>)
      requires Valid()
      modifies this
      ensures Valid() && old(run) <= run && old(mishaps) <= mishaps
      ensures |outcomes| == |readings|
      ensures AllSettled(world, outcomes)
      ensures forall i :: 0 <= i < |outcomes| && outcomes[i] == Stopped(Unreconciled) ==> readings[i].unread > 0
    {
      outcomes := [];
      for i := 0 to |readings|
        invariant Valid() && old(run) <= run && old(mishaps) <= mishaps
        invariant |outcomes| == i && AllSettled(world, outcomes)
        invariant forall j :: 0 <= j < i && outcomes[j] == Stopped(Unreconciled) ==> readings[j].unread > 0
      {
        ghost var before := run;
        var r := RunPayoutsForPool(readings[i]);
        StillSettled(before, outcomes);
        OneMoreSettled(world, outcomes, r);
        outcomes := outcomes + [r];
      }
    }

    lemma StillSettled(before: seq<World>, outcomes: seq<Async<Cycle>>)
      requires Valid() && IsRun(before) && before <= run && AllSettled(before[|before| - 1], outcomes)
      ensures AllSettled(world, outcomes)
    {
      forall i | 0 <= i < |outcomes| && outcomes[i].Done? && outcomes[i].value.next.Some? ensures IsSettled(world, outcomes[i].value.next.value) {
        StaysSettled(before, outcomes[i].value.next.value);
      }
    }
  }

  /** What the cycles opened is settled. */
  ghost predicate AllSettled(w: World, outcomes: seq<Async<Cycle>>) {
    forall i :: 0 <= i < |outcomes| && outcomes[i].Done? && outcomes[i].value.next.Some? ==> IsSettled(w, outcomes[i].value.next.value)
  }

  lemma OneMoreSettled(w: World, outcomes: seq<Async<Cycle>>, r: Async<Cycle>)
    requires AllSettled(w, outcomes) && (r.Done? && r.value.next.Some? ==> IsSettled(w, r.value.next.value))
    ensures AllSettled(w, outcomes + [r])
  {}
}
