/** apply_consolidation and rollback_consolidation (scripts/cval-pvc-layout.py). Each method takes
    the number of durable steps it survives; running out is a crash between two steps. */
module LayoutTransaction {
  import opened EvidencePaths
  import opened TreeEdits
  import opened LayoutPlan
  import opened LayoutState
  import opened LayoutSteps
  import opened LayoutFacts

  datatype Outcome = Complete | Interrupted | Failed

  /** The state a completed consolidation leaves. */
  ghost predicate Consolidated(plan: Plan, t0: Tree, t: Tree, r: map<Path, Tree>) {
    && Between(plan, t0, t, r, AllOperations(plan))
    && (forall p | InMerged(plan.merged, p) :: p !in t)
    && DirectoriesPresent(plan, t, false, true)
  }

  /** What rollback promises: the same paths, every file and moved entry identical, every merged
      directory with its recorded mode, owner and modification time, and nothing retained. Only
      directories that received entries may keep a newer modification time. */
  ghost predicate Restored(plan: Plan, t0: Tree, t: Tree, r: map<Path, Tree>) {
    && r == map[]
    && t.Keys == t0.Keys
    && forall p | p in t0 ::
         if InMerged(plan.merged, p) then t[p].Dir? && t[p].meta == t0[p].meta
         else Kept(plan, p, t0[p], t[p])
  }

  ghost predicate Described(plan: Plan, t0: Tree, t: Tree, k: nat)
    requires k <= |plan.merged|
  {
    forall a | 0 <= a < k :: plan.merged[a].source in t && t[plan.merged[a].source].Dir? && t[plan.merged[a].source].meta == plan.merged[a].identity.meta
  }

  lemma RestoredAtEnd(plan: Plan, t0: Tree, t: Tree, r: map<Path, Tree>)
    requires Applicable(t0, plan) && Between(plan, t0, t, r, {})
    requires Described(plan, t0, t, |plan.merged|)
    requires forall c | c in plan.created :: c !in t
    ensures Restored(plan, t0, t, r)
  {
    hide Applicable;
    forall p
      ensures p in t <==> p in t0
      ensures p in t0 && InMerged(plan.merged, p) ==> t[p].Dir? && t[p].meta == t0[p].meta
      ensures p in t0 && !InMerged(plan.merged, p) ==> Kept(plan, p, t0[p], t[p])
    {
      PathRestored(plan, t0, t, r, p);
    }
  }

  lemma PathRestored(plan: Plan, t0: Tree, t: Tree, r: map<Path, Tree>, p: Path)
    requires Applicable(t0, plan) && Between(plan, t0, t, r, {})
    requires Described(plan, t0, t, |plan.merged|)
    requires forall c | c in plan.created :: c !in t
    ensures p in t <==> p in t0
    ensures p in t0 && InMerged(plan.merged, p) ==> t[p].Dir? && t[p].meta == t0[p].meta
    ensures p in t0 && !InMerged(plan.merged, p) ==> Kept(plan, p, t0[p], t[p])
  {
    hide Applicable;
    if InMerged(plan.merged, p) {
      MergedIdentity(plan, t0, p);
      var k :| 0 <= k < |plan.merged| && plan.merged[k].source == p && plan.merged[k].identity == t0[p];
    } else if UnderOperation(plan.operations, p) {
      var i :| 0 <= i < |plan.operations| && plan.operations[i].source <= p;
      assert OperationState(t, r, plan.operations[i], false);
      OperationsFit(t0, plan, i);
      SubAt(t, plan.operations[i].source, p);
      SubAt(t0, plan.operations[i].source, p);
    } else if UnderMoveDestination(plan.operations, p) {
      var i :| 0 <= i < |plan.operations| && plan.operations[i].action.Move? && plan.operations[i].destination <= p;
      assert OperationState(t, r, plan.operations[i], false);
      PlanStarts(t0, plan);
      assert OperationState(t0, map[], plan.operations[i], false);
      SubAt(t, plan.operations[i].destination, p);
      SubAt(t0, plan.operations[i].destination, p);
    } else if p in plan.created {
      CreatedFact(t0, plan, p);
    }
  }

  lemma MergedIdentity(plan: Plan, t0: Tree, p: Path)
    requires Applicable(t0, plan) && InMerged(plan.merged, p)
    ensures p in t0 && exists k :: 0 <= k < |plan.merged| && plan.merged[k].source == p && plan.merged[k].identity == t0[p]
  {
    var k :| 0 <= k < |plan.merged| && plan.merged[k].source == p;
    assert plan.merged[k] in plan.merged;
  }

  class Volume {
    var tree: Tree
    /** The transaction's duplicates area, keyed by the source each subtree came from. */
    var retained: map<Path, Tree>

    constructor (t: Tree)
      ensures tree == t && retained == map[]
    {
      tree, retained := t, map[];
    }

    method Mkdir(p: Path) returns (ghost n: Node, ghost now: int)
      requires p != [] && p !in tree
      modifies this`tree
      ensures n.Dir? && tree == Touch(old(tree)[p := n], Parent(p), now)
    {
      var stamp: int, inode: nat, meta: Meta := *, *, *;
      var entry := Dir(inode, meta);
      tree := Touch(tree[p := entry], Parent(p), stamp);
      n, now := entry, stamp;
    }

    method Rmdir(p: Path) returns (ok: bool, ghost now: int)
      requires p != []
      modifies this`tree
      ensures ok == (p in old(tree) && old(tree)[p].Dir? && Names(old(tree), p) == {})
      ensures tree == if ok then Touch(old(tree) - {p}, Parent(p), now) else old(tree)
    {
      var stamp: int := *;
      now := stamp;
      ok := p in tree && tree[p].Dir? && Names(tree, p) == {};
      if ok {
        tree := Touch(tree - {p}, Parent(p), stamp);
      }
    }

    /** One forward operation: recheck the fingerprints, then move without replacing anything. */
    method Transfer(o: Operation) returns (ok: bool, ghost now: int)
      requires o.source != [] && o.destination != []
      modifies this
      ensures ok == (
                && o.source in old(tree) && Sub(old(tree), o.source) == o.sourceState
                && (o.action.Move? ==> o.destination !in old(tree) && Parent(o.destination) in old(tree) && old(tree)[Parent(o.destination)].Dir?)
                && (o.action.Duplicate? ==> Sub(old(tree), o.destination) == o.destinationState && o.source !in old(retained)))
      ensures !ok ==> tree == old(tree) && retained == old(retained)
      ensures ok && o.action.Move? ==> tree == Renamed(old(tree), o.source, o.destination, now) && retained == old(retained)
      ensures ok && o.action.Duplicate? ==> tree == Removed(old(tree), o.source, now) && retained == old(retained)[o.source := o.sourceState]
    {
      var stamp: int := *;
      now := stamp;
      if o.source !in tree || Sub(tree, o.source) != o.sourceState {
        return false, now;
      }
      if o.action.Duplicate? {
        if Sub(tree, o.destination) != o.destinationState || o.source in retained {
          return false, now;
        }
        retained := retained[o.source := Sub(tree, o.source)];
        tree := Removed(tree, o.source, stamp);
      } else {
        if o.destination in tree || Parent(o.destination) !in tree || !tree[Parent(o.destination)].Dir? {
          return false, now;
        }
        tree := Renamed(tree, o.source, o.destination, stamp);
      }
      ok := true;
    }

    /** One backward operation. */
    method Return(o: Operation) returns (ok: bool, ghost now: int)
      requires o.source != [] && o.destination != []
      modifies this
      ensures ok == (
                && o.source !in old(tree) && Parent(o.source) in old(tree) && old(tree)[Parent(o.source)].Dir?
                && (o.action.Move? ==> o.destination in old(tree))
                && (o.action.Duplicate? ==> o.source in old(retained)))
      ensures !ok ==> tree == old(tree) && retained == old(retained)
      ensures ok && o.action.Move? ==> tree == Renamed(old(tree), o.destination, o.source, now) && retained == old(retained)
      ensures ok && o.action.Duplicate? ==> tree == Returned(old(tree), o.source, old(retained)[o.source], now) && retained == old(retained) - {o.source}
    {
      var stamp: int := *;
      now := stamp;
      if o.source in tree || Parent(o.source) !in tree || !tree[Parent(o.source)].Dir? {
        return false, now;
      }
      if o.action.Move? {
        if o.destination !in tree {
          return false, now;
        }
        tree := Renamed(tree, o.destination, o.source, stamp);
      } else {
        if o.source !in retained {
          return false, now;
        }
        tree := Returned(tree, o.source, retained[o.source], stamp);
        retained := retained - {o.source};
      }
      ok := true;
    }
  }
}
