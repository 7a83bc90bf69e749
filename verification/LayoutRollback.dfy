/** rollback_consolidation, from any state of the transaction. */
module LayoutRollback {
  import opened EvidencePaths
  import opened TreeEdits
  import opened LayoutPlan
  import opened LayoutPlanner
  import opened LayoutState
  import opened LayoutSteps
  import opened LayoutFacts
  import opened LayoutTransaction
  import opened LayoutRun

  /** The entry an operation moved, where it is now. */
  function ActualState(t: Tree, r: map<Path, Tree>, o: Operation): Tree {
    if o.action.Move? then Sub(t, o.destination) else if o.source in r then r[o.source] else map[]
  }

  predicate ActualExists(t: Tree, r: map<Path, Tree>, o: Operation) {
    if o.action.Move? then o.destination in t else o.source in r
  }

  /** Rollback accepts an operation when exactly one of its two places holds the planned state. */
  predicate Recoverable(t: Tree, r: map<Path, Tree>, o: Operation) {
    if o.source in t then Sub(t, o.source) == o.sourceState && !ActualExists(t, r, o)
    else ActualExists(t, r, o) && ActualState(t, r, o) == o.sourceState
  }

  /** The scan that decides what to put back, or refuses the whole rollback. */
  method CollectRestore(v: Volume, plan: Plan) returns (accepted: bool, restore: seq<nat>)
    ensures accepted == forall i | 0 <= i < |plan.operations| :: Recoverable(v.tree, v.retained, plan.operations[i])
    ensures accepted ==> forall i: nat :: i in restore <==> i < |plan.operations| && plan.operations[i].source !in v.tree
    ensures accepted ==> |restore| <= |plan.operations| && forall a, b | 0 <= a < b < |restore| :: restore[a] < restore[b]
  {
    restore := [];
    for i := 0 to |plan.operations|
      invariant forall j | 0 <= j < i :: Recoverable(v.tree, v.retained, plan.operations[j])
      invariant forall j: nat :: j in restore <==> j < i && plan.operations[j].source !in v.tree
      invariant |restore| <= i && forall a, b | 0 <= a < b < |restore| :: restore[a] < restore[b]
    {
      var o := plan.operations[i];
      if o.source in v.tree {
        if Sub(v.tree, o.source) != o.sourceState || ActualExists(v.tree, v.retained, o) {
          return false, [];
        }
      } else if ActualExists(v.tree, v.retained, o) && ActualState(v.tree, v.retained, o) == o.sourceState {
        assert forall a | 0 <= a < |restore| :: restore[a] in restore;
        restore := restore + [i];
      } else {
        return false, [];
      }
    }
    accepted := true;
  }

  /** No crash point makes rollback refuse. */
  lemma AlwaysRecoverable(plan: Plan, t0: Tree, t: Tree, r: map<Path, Tree>, moved: set<nat>, i: nat)
    requires Applicable(t0, plan) && Between(plan, t0, t, r, moved) && i < |plan.operations|
    ensures Recoverable(t, r, plan.operations[i])
    ensures i in moved <==> plan.operations[i].source !in t
  {
    hide Applicable, Between, Sub;
    var o := plan.operations[i];
    StateOf(plan, t0, t, r, moved, i);
    OperationsFit(t0, plan, i);
    SubIsEmptyIffMissing(t0, o.source);
    SubIsEmptyIffMissing(t, o.source);
    SubIsEmptyIffMissing(t, o.destination);
  }

  lemma SubIsEmptyIffMissing(t: Tree, p: Path)
    ensures p in t ==> Sub(t, p) != map[]
    ensures p in t <==> [] in Sub(t, p)
  {
    assert p + [] == p;
  }

  method RemakeMerged(v: Volume, plan: Plan, steps: nat, ghost t0: Tree, ghost moved: set<nat>) returns (done: bool, left: nat)
    requires Applicable(t0, plan) && Between(plan, t0, v.tree, v.retained, moved)
    modifies v`tree
    ensures Between(plan, t0, v.tree, v.retained, moved)
    ensures done ==> DirectoriesPresent(plan, v.tree, true, false) && left + |plan.merged| >= steps
    ensures !done ==> steps < |plan.merged|
  {
    hide Applicable, Between;
    left := steps;
    for k := |plan.merged| downto 0
      invariant Between(plan, t0, v.tree, v.retained, moved)
      invariant forall a | k <= a < |plan.merged| :: plan.merged[a].source in v.tree
      invariant left + (|plan.merged| - k) >= steps
    {
      MergedAt(plan, t0, k);
      var m := plan.merged[k].source;
      if m !in v.tree {
        if left == 0 {
          return false, left;
        }
        ghost var t := v.tree;
        // Reversed post-order: the parent is listed later, so it exists again by now.
        assert Parent(m) == [] || Parent(m) in v.tree;
        ghost var n, now := v.Mkdir(m);
        DirectoryStep(plan, t0, t, v.retained, moved, m, n, now, v.tree);
        forall a | k <= a < |plan.merged| ensures plan.merged[a].source in v.tree {
          MergedAt(plan, t0, a);
        }
        left := left - 1;
      }
    }
    done := true;
  }

  method MoveBack(v: Volume, plan: Plan, restore: seq<nat>, steps: nat, ghost t0: Tree, ghost moved: set<nat>) returns (done: bool, left: nat)
    requires Applicable(t0, plan) && Between(plan, t0, v.tree, v.retained, moved)
    requires forall i: nat :: i in restore <==> i in moved && i < |plan.operations|
    requires forall a, b | 0 <= a < b < |restore| :: restore[a] < restore[b]
    requires DirectoriesPresent(plan, v.tree, true, false)
    modifies v
    ensures InTransaction(plan, t0, v.tree, v.retained)
    ensures done ==> Between(plan, t0, v.tree, v.retained, {}) && DirectoriesPresent(plan, v.tree, true, false) && left + |restore| == steps
    ensures !done ==> steps < |restore|
  {
    hide Applicable, Between, Renamed, Returned, Sub;
    left := steps;
    ghost var out := set i | i in restore;
    SameMoved(plan, t0, v.tree, v.retained, moved, out);
    for k := |restore| downto 0
      invariant out == set i | i in restore[..k]
      invariant Between(plan, t0, v.tree, v.retained, out)
      invariant DirectoriesPresent(plan, v.tree, true, false)
      invariant left + (|restore| - k) == steps
    {
      if left == 0 {
        return false, left;
      }
      var i := restore[k];
      assert restore[..k + 1] == restore[..k] + [i];
      assert i in restore;
      OperationsFit(t0, plan, i);
      AlwaysRecoverable(plan, t0, v.tree, v.retained, out, i);
      SourceHolder(t0, plan, v.tree, v.retained, out, i);
      ghost var t, r := v.tree, v.retained;
      var ok, now := v.Return(plan.operations[i]);
      BackwardStep(plan, t0, t, r, out, i, v.tree, v.retained, now);
      out := out - {i};
      // The fingerprint recheck after each move back always succeeds.
      StateOf(plan, t0, v.tree, v.retained, out, i);
      assert Sub(v.tree, plan.operations[i].source) == plan.operations[i].sourceState;
      left := left - 1;
    }
    assert out == {};
    done := true;
  }

  lemma SameMoved(plan: Plan, t0: Tree, t: Tree, r: map<Path, Tree>, moved: set<nat>, out: set<nat>)
    requires Between(plan, t0, t, r, moved)
    requires forall i: nat | i < |plan.operations| :: i in out <==> i in moved
    ensures Between(plan, t0, t, r, out)
  {
  }

  method DescribeMerged(v: Volume, plan: Plan, steps: nat, ghost t0: Tree) returns (done: bool, left: nat)
    requires Applicable(t0, plan) && Between(plan, t0, v.tree, v.retained, {})
    requires DirectoriesPresent(plan, v.tree, true, false)
    modifies v`tree
    ensures Between(plan, t0, v.tree, v.retained, {})
    ensures done ==> Described(plan, t0, v.tree, |plan.merged|) && left + 3 * |plan.merged| == steps
    ensures !done ==> steps < 3 * |plan.merged|
  {
    hide Applicable, Between;
    left := steps;
    for k := 0 to |plan.merged|
      invariant Between(plan, t0, v.tree, v.retained, {})
      invariant DirectoriesPresent(plan, v.tree, true, false)
      invariant Described(plan, t0, v.tree, k)
      invariant left + 3 * k == steps
    {
      var m := plan.merged[k];
      MergedAt(plan, t0, k);
      var wanted := m.identity.meta;
      if left == 0 {
        return false, left;
      }
      SetMeta(v, plan, k, v.tree[m.source].meta.(mode := wanted.mode), t0);
      if left == 1 {
        return false, left - 1;
      }
      SetMeta(v, plan, k, v.tree[m.source].meta.(uid := wanted.uid, gid := wanted.gid), t0);
      if left == 2 {
        return false, left - 2;
      }
      SetMeta(v, plan, k, v.tree[m.source].meta.(mtime := wanted.mtime), t0);
      left := left - 3;
    }
    done := true;
  }

  /** chmod, chown or utime of one merged directory. */
  method SetMeta(v: Volume, plan: Plan, k: nat, meta: Meta, ghost t0: Tree)
    requires Applicable(t0, plan) && Between(plan, t0, v.tree, v.retained, {}) && k < |plan.merged|
    requires DirectoriesPresent(plan, v.tree, true, false) && Described(plan, t0, v.tree, k)
    modifies v`tree
    ensures Between(plan, t0, v.tree, v.retained, {})
    ensures DirectoriesPresent(plan, v.tree, true, false) && Described(plan, t0, v.tree, k)
    ensures plan.merged[k].source in v.tree && v.tree[plan.merged[k].source].Dir? && v.tree[plan.merged[k].source].meta == meta
  {
    hide Applicable, Between;
    MergedAt(plan, t0, k);
    var m := plan.merged[k].source;
    ghost var t := v.tree;
    PresentDirectory(plan, t0, t, v.retained, {}, m);
    var n := Dir(v.tree[m].inode, meta);
    v.tree := v.tree[m := n];
    DirectoryStep(plan, t0, t, v.retained, {}, m, n, 0, v.tree);
  }

  lemma StillDescribed(plan: Plan, t0: Tree, t: Tree, c: Path, now: int)
    requires Applicable(t0, plan) && Described(plan, t0, t, |plan.merged|) && c in plan.created && c != [] && Parent(c) == []
    ensures Described(plan, t0, Touch(t - {c}, Parent(c), now), |plan.merged|)
  {
    hide Applicable;
    forall a: nat | a < |plan.merged| ensures plan.merged[a].source != c && plan.merged[a].source != [] {
      MergedAt(plan, t0, a);
      NotBoth(plan, t0, plan.merged[a].source);
    }
  }

  method RemoveCreated(v: Volume, plan: Plan, steps: nat, ghost t0: Tree) returns (done: bool)
    requires Applicable(t0, plan) && Between(plan, t0, v.tree, v.retained, {})
    requires Described(plan, t0, v.tree, |plan.merged|)
    modifies v`tree
    ensures Between(plan, t0, v.tree, v.retained, {})
    ensures done ==> Restored(plan, t0, v.tree, v.retained)
    ensures !done ==> steps < |plan.created|
  {
    hide Applicable, Between, Described, Restored, Names;
    var left := steps;
    CreatedOnce(t0, plan);
    for k := |plan.created| downto 0
      invariant Between(plan, t0, v.tree, v.retained, {})
      invariant Described(plan, t0, v.tree, |plan.merged|)
      invariant forall a | k <= a < |plan.created| :: plan.created[a] !in v.tree
      invariant left + (|plan.created| - k) >= steps
    {
      var c := plan.created[k];
      if c in v.tree {
        if left == 0 {
          return false;
        }
        CreatedFact(t0, plan, c);
        ghost var t := v.tree;
        PresentDirectory(plan, t0, t, v.retained, {}, c);
        CreatedEmptyAtEnd(t0, plan, t, v.retained, c);
        var ok, now := v.Rmdir(c);
        DirectoryStep(plan, t0, t, v.retained, {}, c, t[c], now, v.tree);
        StillDescribed(plan, t0, t, c, now);
        left := left - 1;
      }
    }
    RestoredAtEnd(plan, t0, v.tree, v.retained);
    done := true;
  }

  /** Steps after which an uninterrupted rollback is certainly finished. */
  function RollbackSteps(plan: Plan): nat {
    4 * |plan.merged| + |plan.operations| + |plan.created|
  }

  /** From every state of the transaction rollback is accepted; interrupted anywhere it leaves a
      state of the transaction; finished, it has restored the original tree. */
  method Rollback(v: Volume, plan: Plan, steps: nat, ghost t0: Tree) returns (outcome: Outcome)
    requires Applicable(t0, plan) && InTransaction(plan, t0, v.tree, v.retained)
    modifies v
    ensures InTransaction(plan, t0, v.tree, v.retained)
    ensures outcome.Complete? ==> Restored(plan, t0, v.tree, v.retained)
    ensures outcome != Failed
    ensures outcome.Interrupted? ==> steps < RollbackSteps(plan)
  {
    hide Applicable, Between;
    ghost var moved :| Between(plan, t0, v.tree, v.retained, moved);
    forall i: nat | i < |plan.operations|
      ensures Recoverable(v.tree, v.retained, plan.operations[i])
      ensures i in moved <==> plan.operations[i].source !in v.tree
    {
      AlwaysRecoverable(plan, t0, v.tree, v.retained, moved, i);
    }
    var accepted, restore := CollectRestore(v, plan);
    assert accepted;
    var done, left := RemakeMerged(v, plan, steps, t0, moved);
    if !done {
      return Interrupted;
    }
    done, left := MoveBack(v, plan, restore, left, t0, moved);
    if !done {
      return Interrupted;
    }
    done, left := DescribeMerged(v, plan, left, t0);
    if !done {
      return Interrupted;
    }
    done := RemoveCreated(v, plan, left, t0);
    outcome := if done then Complete else Interrupted;
  }

  /** Rollbacks that may each crash, until one finishes. */
  method RollbackUntilDone(v: Volume, plan: Plan, rollbackSteps: seq<nat>, ghost t0: Tree) returns (restored: bool)
    requires Applicable(t0, plan) && InTransaction(plan, t0, v.tree, v.retained)
    modifies v
    ensures InTransaction(plan, t0, v.tree, v.retained)
    ensures restored ==> Restored(plan, t0, v.tree, v.retained)
    ensures !restored ==> forall k | 0 <= k < |rollbackSteps| :: rollbackSteps[k] < RollbackSteps(plan)
  {
    hide Applicable, InTransaction, Restored, RollbackSteps;
    restored := false;
    var next := 0;
    while next < |rollbackSteps| && !restored
      invariant next <= |rollbackSteps|
      invariant InTransaction(plan, t0, v.tree, v.retained)
      invariant restored ==> Restored(plan, t0, v.tree, v.retained)
      invariant !restored ==> forall k | 0 <= k < next :: rollbackSteps[k] < RollbackSteps(plan)
    {
      var outcome := Rollback(v, plan, rollbackSteps[next], t0);
      restored := outcome.Complete?;
      next := next + 1;
    }
  }

  /** Plan a well-formed tree, apply the plan, crash anywhere, and roll back through any number of
      further crashes: the first rollback that is not cut short restores the tree. */
  method ApplyThenRecover(t: Tree, applySteps: nat, rollbackSteps: seq<nat>) returns (v: Volume, plan: Plan, restored: bool)
    requires WellFormed(t)
    ensures fresh(v) && PlanFits(t, plan)
    ensures plan.conflicts != [] ==> v.tree == t && !restored
    ensures restored ==> Restored(plan, t, v.tree, v.retained)
    ensures plan.conflicts == [] && !restored ==> forall k | 0 <= k < |rollbackSteps| :: rollbackSteps[k] < RollbackSteps(plan)
  {
    hide WellFormed, PlanFits, InTransaction, Restored, Consolidated, RollbackSteps;
    v := new Volume(t);
    plan := ConsolidationPlan(t);
    restored := false;
    if plan.conflicts == [] {
      var outcome := Apply(v, plan, applySteps);
      restored := RollbackUntilDone(v, plan, rollbackSteps, t);
    }
  }
}
