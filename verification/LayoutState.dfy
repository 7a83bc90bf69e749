/** Every state a consolidation can be in between two durable steps, forward or backward. */
module LayoutState {
  import opened EvidencePaths
  import opened TreeEdits
  import opened LayoutPlan
  import opened LayoutPlanner

  /** A conflict-free plan of a well-formed tree: what apply_consolidation accepts. */
  ghost predicate Applicable(t0: Tree, plan: Plan) {
    WellFormed(t0) && PlanFits(t0, plan) && plan.conflicts == []
  }

  /** An operation has either not happened or happened completely. Duplicates leave the root for
      the transaction's retained area, keyed by their source. */
  ghost predicate OperationState(t: Tree, retained: map<Path, Tree>, o: Operation, moved: bool) {
    && Sub(t, o.source) == (if moved then map[] else o.sourceState)
    && (o.action.Move? ==> Sub(t, o.destination) == (if moved then o.sourceState else map[]))
    && (o.action.Duplicate? ==>
          && (o.source in retained <==> moved)
          && (moved ==> retained[o.source] == o.sourceState))
  }

  ghost predicate UnderMoveDestination(ops: seq<Operation>, p: Path) {
    exists i :: 0 <= i < |ops| && ops[i].action.Move? && ops[i].destination <= p
  }

  ghost predicate DuplicateSource(ops: seq<Operation>, p: Path) {
    exists i :: 0 <= i < |ops| && ops[i].action.Duplicate? && ops[i].source == p
  }

  /** Directories whose modification time the transaction may change for good: the root and the
      directories that receive moved entries. */
  ghost predicate Stamped(plan: Plan, p: Path) {
    p == [] || Needed(plan.operations, p)
  }

  /** Paths the plan never moves, creates or removes. */
  ghost predicate Bystander(plan: Plan, p: Path) {
    && !UnderOperation(plan.operations, p)
    && !UnderMoveDestination(plan.operations, p)
    && !InMerged(plan.merged, p)
    && p !in plan.created
  }

  ghost predicate Kept(plan: Plan, p: Path, a: Node, b: Node) {
    b == a || (Stamped(plan, p) && Restamped(a, b))
  }

  ghost predicate DirectoryIfPresent(t: Tree, p: Path) {
    p in t ==> t[p].Dir?
  }

  ghost predicate Between(plan: Plan, t0: Tree, t: Tree, retained: map<Path, Tree>, moved: set<nat>) {
    && (forall i | 0 <= i < |plan.operations| :: OperationState(t, retained, plan.operations[i], i in moved))
    && (forall p | p in retained :: DuplicateSource(plan.operations, p))
    && (forall p | InMerged(plan.merged, p) || p in plan.created :: DirectoryIfPresent(t, p))
    && (forall p | Bystander(plan, p) :: (p in t <==> p in t0) && (p in t0 ==> Kept(plan, p, t0[p], t[p])))
  }

  /** The tree and retained area of some state between the plan and its completion. */
  ghost predicate InTransaction(plan: Plan, t0: Tree, t: Tree, retained: map<Path, Tree>) {
    exists moved :: Between(plan, t0, t, retained, moved)
  }

  lemma OperationsFit(t0: Tree, plan: Plan, i: nat)
    requires Applicable(t0, plan) && i < |plan.operations|
    ensures OperationFits(t0, plan.operations[i]) && plan.operations[i].destination != []
    ensures !UnderSourceRoot(plan.operations[i].destination)
    ensures |plan.operations[i].source| == 1 || InMerged(plan.merged, Parent(plan.operations[i].source))
  {
    var o := plan.operations[i];
    assert o in plan.operations;
    DestinationsAreNotSources(o.source);
  }

  lemma FirstNames(a: Path, b: Path)
    requires UnderSourceRoot(a) && b != [] && !UnderSourceRoot(b)
    ensures !Nested(a, b)
  {
  }

  /** The two ends of different operations are four pairwise unnested places. */
  lemma EndsApart(t0: Tree, plan: Plan, i: nat, j: nat)
    requires Applicable(t0, plan) && i < |plan.operations| && j < |plan.operations|
    ensures !Nested(plan.operations[i].source, plan.operations[j].destination)
    ensures i != j ==> !Nested(plan.operations[i].source, plan.operations[j].source)
    ensures i != j ==> !Nested(plan.operations[i].destination, plan.operations[j].destination)
  {
    OperationsFit(t0, plan, i);
    OperationsFit(t0, plan, j);
    var a, b := plan.operations[i], plan.operations[j];
    FirstNames(a.source, b.destination);
    RelocatedPreservesNesting(a.source, b.source);
    RelocatedPreservesNesting(b.source, a.source);
  }

  /** Stamping the directory that holds one end of an operation cannot touch a moved subtree. */
  lemma ParentsApart(t0: Tree, plan: Plan, i: nat, j: nat)
    requires Applicable(t0, plan) && i < |plan.operations| && j < |plan.operations|
    requires plan.operations[i].source != [] && plan.operations[i].destination != []
    ensures var a, b := plan.operations[i], plan.operations[j];
            && !(b.source <= Parent(a.source)) && !(b.source <= Parent(a.destination))
            && !(b.destination <= Parent(a.source)) && !(b.destination <= Parent(a.destination))
  {
    EndsApart(t0, plan, i, j);
    EndsApart(t0, plan, j, i);
    var a, b := plan.operations[i], plan.operations[j];
    NotAboveParent(b.source, a.source);
    NotAboveParent(b.source, a.destination);
    NotAboveParent(b.destination, a.source);
    NotAboveParent(b.destination, a.destination);
  }

  lemma MergedFact(t0: Tree, plan: Plan, p: Path)
    requires Applicable(t0, plan) && InMerged(plan.merged, p)
    ensures UnderSourceRoot(p) && p in t0 && t0[p].Dir? && Relocated(p) in t0 && t0[Relocated(p)].Dir?
    ensures |p| == 1 || InMerged(plan.merged, Parent(p))
    ensures !UnderOperation(plan.operations, p)
  {
    var k :| 0 <= k < |plan.merged| && plan.merged[k].source == p;
    assert plan.merged[k] in plan.merged;
  }

  lemma CreatedFact(t0: Tree, plan: Plan, p: Path)
    requires Applicable(t0, plan) && p in plan.created
    ensures p == ["logs"] && p !in t0 && Needed(plan.operations, p)
  {
  }

  lemma DestinationLength(p: Path)
    requires UnderSourceRoot(p)
    ensures !(Relocated(p) <= ["logs"])
  {
    var d := Relocated(p);
    if p[0] != "archive" {
      assert Relocation(p[0]).value == ["logs", p[0]];
      assert |d| >= 2;
    } else {
      assert d[0] == "archives";
    }
  }

  /** A merged or created directory lies inside no moved subtree, at either end. */
  lemma DirectoriesApart(t0: Tree, plan: Plan, p: Path, j: nat)
    requires Applicable(t0, plan) && j < |plan.operations|
    requires InMerged(plan.merged, p) || p in plan.created || p == []
    ensures !(plan.operations[j].source <= p) && !(plan.operations[j].destination <= p)
  {
    hide Applicable;
    OperationsFit(t0, plan, j);
    var o := plan.operations[j];
    if InMerged(plan.merged, p) {
      MergedFact(t0, plan, p);
      FirstNames(p, o.destination);
    } else if p in plan.created {
      CreatedFact(t0, plan, p);
      DestinationLength(o.source);
      assert !UnderSourceRoot(["logs"]);
      FirstNames(o.source, ["logs"]);
    }
  }

  lemma PlanStarts(t0: Tree, plan: Plan)
    requires Applicable(t0, plan)
    ensures Between(plan, t0, t0, map[], {})
  {
    forall i: nat | i < |plan.operations| ensures OperationState(t0, map[], plan.operations[i], false) {
      OperationsFit(t0, plan, i);
      var o := plan.operations[i];
      if o.action.Move? {
        NothingBelowMissing(t0, o.destination);
      }
    }
    forall p | InMerged(plan.merged, p) || p in plan.created ensures DirectoryIfPresent(t0, p) {
      if InMerged(plan.merged, p) {
        var k :| 0 <= k < |plan.merged| && plan.merged[k].source == p;
        assert plan.merged[k] in plan.merged;
      }
    }
  }

  lemma NothingBelowMissing(t: Tree, p: Path)
    requires WellFormed(t) && p !in t
    ensures Sub(t, p) == map[]
  {
    forall x ensures p + x !in t {
      assert (p + x)[..|p|] == p;
      if p + x in t {
        PrefixesExist(t, p + x, |p|);
      }
    }
  }

  /** What one durable step may change: one operation's two ends, one directory entry, and the
      modification times of directories that are merged or stamped anyway. */
  ghost predicate LocalEdit(plan: Plan, t: Tree, u: Tree, i: int, hole: Path) {
    && (forall j | 0 <= j < |plan.operations| && j != i ::
          && Sub(u, plan.operations[j].source) == Sub(t, plan.operations[j].source)
          && (plan.operations[j].action.Move? ==> Sub(u, plan.operations[j].destination) == Sub(t, plan.operations[j].destination)))
    && (forall p | (InMerged(plan.merged, p) || p in plan.created) && p != hole :: DirectoryIfPresent(t, p) ==> DirectoryIfPresent(u, p))
    && (forall p | Bystander(plan, p) :: (p in u <==> p in t) && (p in t ==> u[p] == t[p] || (Stamped(plan, p) && Restamped(t[p], u[p]))))
  }

  lemma StepStaysBetween(plan: Plan, t0: Tree, t: Tree, r: map<Path, Tree>, moved: set<nat>, u: Tree, r': map<Path, Tree>, moved': set<nat>, i: int, hole: Path)
    requires Between(plan, t0, t, r, moved) && LocalEdit(plan, t, u, i, hole)
    requires forall j | 0 <= j < |plan.operations| && j != i ::
               && (j in moved' <==> j in moved)
               && (plan.operations[j].action.Duplicate? ==>
                     (plan.operations[j].source in r' <==> plan.operations[j].source in r)
                     && (plan.operations[j].source in r ==> r'[plan.operations[j].source] == r[plan.operations[j].source]))
    requires 0 <= i < |plan.operations| ==> OperationState(u, r', plan.operations[i], i in moved')
    requires forall p | p in r' && p !in r :: DuplicateSource(plan.operations, p)
    requires InMerged(plan.merged, hole) || hole in plan.created ==> DirectoryIfPresent(u, hole)
    ensures Between(plan, t0, u, r', moved')
  {
  }
}
