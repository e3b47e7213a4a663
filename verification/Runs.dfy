/**
 Runs: all epochs of a pool together, and what holds after every run of moves.
 */
module Runs {
  import opened Epochs
  import opened Prelude

  type World = seq<Slot>  // by epoch index; indexes past the end are untouched

  datatype Move = Move(index: nat, action: Action)

  function At(w: World, index: nat): Slot {
    if index < |w| then w[index] else EMPTY
  }

  function Step(w: World, m: Move): World {
    if m.index < |w| then w[m.index := Apply(m.index, w[m.index], m.action)]
    else if m.index == |w| then w + [Apply(m.index, EMPTY, m.action)]
    else w
  }

  predicate Closed(s: Slot) {
    s.chain.Some? && s.chain.value.finalized
  }

  /** The plan is the one its basis gives for its window and total. */
  predicate FromBasis(p: Save) {
    p.row.startTs < p.row.endTs && p.row.plan == Shares.PlanOf(p.basis, p.row.startTs, p.row.endTs, p.row.total)
  }

  /** A new epoch is only planned and opened once the one before it is closed, from where that one ended. */
  ghost predicate MoveAllowed(w: World, m: Move) {
    && (m.index < |w| || (m.index == |w| && m.action.SavePlan?))
    && Allowed(m.index, At(w, m.index), m.action)
    && (m.action.SavePlan? || m.action.ReplacePlan? ==> FromBasis(m.action.save))
    && (m.index > 0 ==>
          && (m.action.SavePlan? || m.action.SendOpen? ==> Closed(w[m.index - 1]))
          && (m.action.SendOpen? ==> m.action.sent.open.startTs == w[m.index - 1].chain.value.endTs))
  }

  /** Windows on chain join up: an epoch starts where the previous one ended. */
  ghost predicate Linked(before: Slot, s: Slot) {
    && Closed(before)
    && (forall o :: o in s.opens ==> o.open.startTs == before.chain.value.endTs)
    && (s.chain.Some? ==> s.chain.value.startTs == before.chain.value.endTs)
  }

  ghost predicate WindowOk(s: Slot) {
    && (forall o :: o in s.opens ==> o.open.startTs < o.open.endTs && o.open.total <= U64_MAX)
    && (s.chain.Some? ==> s.chain.value.startTs < s.chain.value.endTs && s.chain.value.total <= U64_MAX)
  }

  ghost predicate WorldOk(w: World) {
    && (forall k :: 0 <= k < |w| ==> SlotOk(k, w[k]) && w[k].row.Some? && WindowOk(w[k]))
    && (forall k :: 0 < k < |w| ==> Linked(w[k - 1], w[k]))
  }

  lemma EmptyOk(index: nat)
    ensures SlotOk(index, EMPTY)
  {}

  lemma LinkKept(before: Slot, s: Slot, index: nat, a: Action)
    requires SlotOk(index, s) && Allowed(index, s, a) && Linked(before, s)
    requires a.SendOpen? ==> a.sent.open.startTs == before.chain.value.endTs
    ensures Linked(before, Apply(index, s, a))
  {}

  lemma LinkAfter(s: Slot, t: Slot, after: Slot)
    requires Linked(s, after) && Evolves(s, t)
    ensures Linked(t, after)
  {}

  lemma SlotStep(w: World, m: Move)
    requires WorldOk(w) && MoveAllowed(w, m)
    ensures var s, t := At(w, m.index), Apply(m.index, At(w, m.index), m.action);
      && SlotOk(m.index, t) && t.row.Some? && WindowOk(t) && Evolves(s, t)
      && (m.index > 0 ==> Linked(w[m.index - 1], t))
  {
    var k, s := m.index, At(w, m.index);
    EmptyOk(k);
    ActionKeeps(k, s, m.action);
    ActionEvolves(k, s, m.action);
    WindowKept(k, s, m.action);
    if 0 < k < |w| {
      LinkKept(w[k - 1], s, k, m.action);
    } else if 0 < k {
      assert Linked(w[k - 1], Apply(k, EMPTY, m.action));
    }
  }

  lemma WindowKept(index: nat, s: Slot, a: Action)
    requires Allowed(index, s, a) && (s.row.Some? || a.SavePlan?) && WindowOk(s)
    ensures Apply(index, s, a).row.Some? && WindowOk(Apply(index, s, a))
  {}

  lemma StepKeeps(w: World, m: Move)
    requires WorldOk(w) && MoveAllowed(w, m)
    ensures WorldOk(Step(w, m))
    ensures |w| <= |Step(w, m)| && forall k :: 0 <= k < |w| ==> Evolves(w[k], Step(w, m)[k])
  {
    SlotStep(w, m);
    var k, v := m.index, Step(w, m);
    if k + 1 < |w| {
      LinkAfter(w[k], v[k], w[k + 1]);
    }
    forall j | 0 <= j < |w| ensures Evolves(w[j], v[j]) {
      if j != k {
        EvolvesReflexive(w[j]);
      }
    }
    forall j | 0 < j < |v| ensures Linked(v[j - 1], v[j]) {
      assert j < |w| && j != k && j - 1 != k ==> v[j - 1] == w[j - 1] && v[j] == w[j];
    }
    forall j | 0 <= j < |v| ensures SlotOk(j, v[j]) && v[j].row.Some? && WindowOk(v[j]) {
      assert j != k ==> v[j] == w[j];
    }
  }

  lemma EvolvesReflexive(s: Slot)
    requires s.row.None? ==> s.chain.None?
    ensures Evolves(s, s)
  {}

  lemma EvolvesTransitive(s: Slot, t: Slot, u: Slot)
    requires Evolves(s, t) && Evolves(t, u)
    ensures Evolves(s, u)
  {}

  // ----- runs -----

  ghost predicate Next(w: World, v: World) {
    exists m :: MoveAllowed(w, m) && v == Step(w, m)
  }

  /** The states of a run, from empty tables and an empty chain on. */
  ghost predicate IsRun(run: seq<World>) {
    run != [] && run[0] == [] && forall n {:trigger Next(run[n], run[n + 1])} :: 0 <= n < |run| - 1 ==> Next(run[n], run[n + 1])
  }

  lemma NextOk(w: World, v: World)
    requires WorldOk(w) && Next(w, v)
    ensures WorldOk(v)
  {
    var m :| MoveAllowed(w, m) && v == Step(w, m);
    StepKeeps(w, m);
  }

  lemma NextEvolves(w: World, v: World, k: nat)
    requires WorldOk(w) && Next(w, v) && k < |w|
    ensures k < |v| && Evolves(w[k], v[k])
  {
    var m :| MoveAllowed(w, m) && v == Step(w, m);
    StepKeeps(w, m);
  }

  lemma RunStep(run: seq<World>, n: nat)
    requires IsRun(run) && n + 1 < |run|
    ensures Next(run[n], run[n + 1])
  {}

  lemma NothingYet()
    ensures WorldOk([])
  {}

  /** The invariant holds in every state of every run. */
  lemma {:induction false} RunKeeps(run: seq<World>, n: nat)
    requires IsRun(run) && n < |run|
    ensures WorldOk(run[n])
  {
    if n == 0 {
      NothingYet();
    } else {
      var before := n - 1;
      RunKeeps(run, before);
      RunStep(run, before);
      NextOk(run[before], run[n]);
    }
  }

  lemma Extend(run: seq<World>, m: Move)
    requires IsRun(run) && MoveAllowed(run[|run| - 1], m)
    ensures IsRun(run + [Step(run[|run| - 1], m)])
  {
    var longer := run + [Step(run[|run| - 1], m)];
    forall n | 0 <= n < |longer| - 1 ensures Next(longer[n], longer[n + 1]) {
      if n < |run| - 1 {
        assert Next(run[n], run[n + 1]);
      }
    }
  }

  lemma NothingChanges(run: seq<World>, i: nat, k: nat)
    requires IsRun(run) && i < |run| && k < |run[i]|
    ensures Evolves(run[i][k], run[i][k])
  {
    RunKeeps(run, i);
    EvolvesReflexive(run[i][k]);
  }

  lemma OneStepEvolves(run: seq<World>, i: nat, k: nat)
    requires IsRun(run) && i + 1 < |run| && k < |run[i]|
    ensures k < |run[i + 1]| && Evolves(run[i][k], run[i + 1][k])
  {
    RunKeeps(run, i);
    RunStep(run, i);
    NextEvolves(run[i], run[i + 1], k);
  }

  /**
   Frozen history: from any moment of a run to any later one, a plan whose phase has left 'planned' and
   its total never change again, landed pushes stay landed, and a closed epoch stays as it is.
   */
  lemma {:induction false} Frozen(run: seq<World>, i: nat, j: nat, k: nat)
    requires IsRun(run) && i <= j < |run| && k < |run[i]|
    ensures k < |run[j]| && Evolves(run[i][k], run[j][k])
    decreases j - i
  {
    if i == j {
      NothingChanges(run, i, k);
    } else {
      OneStepEvolves(run, i, k);
      Frozen(run, i + 1, j, k);
      EvolvesTransitive(run[i][k], run[i + 1][k], run[j][k]);
    }
  }
}
