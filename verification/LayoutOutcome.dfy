/** What a completed consolidation means: a right-biased union of the two trees, with no content
    lost and every old evidence path still resolving to the same content. */
module LayoutOutcome {
  import opened Wrappers
  import opened EvidencePaths
  import opened TreeEdits
  import opened LayoutPlan
  import opened LayoutPlanner
  import opened LayoutState
  import opened LayoutFacts
  import opened LayoutTransaction
  import opened LayoutRun

  lemma CurrentIsBystander(t0: Tree, plan: Plan, p: Path)
    requires Applicable(t0, plan) && p in t0 && !UnderSourceRoot(p)
    ensures Bystander(plan, p)
  {
    hide Applicable;
    forall j: nat | j < |plan.operations|
      ensures !(plan.operations[j].source <= p)
      ensures plan.operations[j].action.Move? ==> !(plan.operations[j].destination <= p)
    {
      OperationsFit(t0, plan, j);
      var o := plan.operations[j];
      if o.action.Move? && o.destination <= p {
        PlanStarts(t0, plan);
        StateOf(plan, t0, t0, map[], {}, j);
        SubAt(t0, o.destination, p);
      }
    }
    if InMerged(plan.merged, p) {
      MergedFact(t0, plan, p);
    }
    if p in plan.created {
      CreatedFact(t0, plan, p);
    }
  }

  /** The operation that covers an unmerged source entry, and where the entry lies in it. */
  lemma CoveringOperation(t0: Tree, plan: Plan, q: Path) returns (i: nat, x: Path)
    requires Applicable(t0, plan) && q in t0 && UnderSourceRoot(q) && !InMerged(plan.merged, q)
    ensures i < |plan.operations|
    ensures var o := plan.operations[i];
            && OperationFits(t0, o) && q == o.source + x && Relocated(q) == o.destination + x
            && x in o.sourceState && o.sourceState[x] == t0[q]
            && (o.action.Duplicate? ==> x == [])
  {
    hide Applicable;
    SourcesAccounted(t0, plan, q);
    i :| 0 <= i < |plan.operations| && plan.operations[i].source <= q;
    var o := plan.operations[i];
    OperationsFit(t0, plan, i);
    x := q[|o.source|..];
    assert q == o.source + x;
    RelocatedExtends(o.source, x);
    SubAt(t0, o.source, q);
    if o.action.Duplicate? {
      NothingBelowFile(t0, plan, o.source, x);
    }
  }

  lemma DestinationFree(t0: Tree, plan: Plan, i: nat, x: Path)
    requires Applicable(t0, plan) && i < |plan.operations| && plan.operations[i].action.Move?
    ensures plan.operations[i].destination + x !in t0
  {
    hide Applicable, Sub;
    PlanStarts(t0, plan);
    StateOf(plan, t0, t0, map[], {}, i);
    assert x !in Sub(t0, plan.operations[i].destination);
  }

  /** The plan is free of conflicts exactly when every retired entry with a counterpart is a directory like it or the
      same file. */
  lemma ConflictFreeIff(t0: Tree, plan: Plan)
    requires WellFormed(t0) && PlanFits(t0, plan)
    ensures plan.conflicts == [] <==>
      forall q | q in t0 && UnderSourceRoot(q) && Relocated(q) in t0 :: Compatible(t0[q], t0[Relocated(q)])
  {
    if plan.conflicts == [] {
      forall q | q in t0 && UnderSourceRoot(q) && Relocated(q) in t0 ensures Compatible(t0[q], t0[Relocated(q)]) {
        CounterpartFits(t0, plan, q);
      }
    } else {
      assert plan.conflicts[0] in plan.conflicts;
    }
  }

  lemma CounterpartFits(t0: Tree, plan: Plan, q: Path)
    requires Applicable(t0, plan) && q in t0 && UnderSourceRoot(q) && Relocated(q) in t0
    ensures Compatible(t0[q], t0[Relocated(q)])
  {
    hide Applicable;
    if InMerged(plan.merged, q) {
      MergedFact(t0, plan, q);
    } else {
      var i, x := CoveringOperation(t0, plan, q);
      if plan.operations[i].action.Move? {
        DestinationFree(t0, plan, i, x);
      }
      assert x == [] ==> plan.operations[i].source + x == plan.operations[i].source;
    }
  }

  /** A tree that apply fails on: logs is a file and dltest is still to be moved below it. */
  function BlockedTree(m: Meta): Tree {
    map[[] := Dir(0, m), ["logs"] := File(1, m, ""), ["dltest"] := Dir(2, m)]
  }

  lemma BlockedTreeIsPlanned(m: Meta, plan: Plan)
    requires PlanFits(BlockedTree(m), plan)
    ensures Applicable(BlockedTree(m), plan) && LogsBlocked(BlockedTree(m))
  {
    var t := BlockedTree(m);
    assert Parent(["logs"]) == [] && Parent(["dltest"]) == [];
    assert "dltest" in SourceNames(t);
    ConflictFreeIff(t, plan);
  }

  /** A source entry that has no counterpart is inside some moved subtree. */
  lemma UnmatchedWasMoved(t0: Tree, plan: Plan, t: Tree, r: map<Path, Tree>, q: Path)
    requires Applicable(t0, plan) && Between(plan, t0, t, r, AllOperations(plan))
    requires q in t0 && UnderSourceRoot(q) && Relocated(q) !in t0
    ensures Relocated(q) in t && t[Relocated(q)] == t0[q]
  {
    hide Applicable, Between;
    if InMerged(plan.merged, q) {
      MergedFact(t0, plan, q);
    }
    var i, x := CoveringOperation(t0, plan, q);
    StateOf(plan, t0, t, r, AllOperations(plan), i);
    assert plan.operations[i].destination + [] == plan.operations[i].destination;
    assert x in Sub(t, plan.operations[i].destination);
  }

  /** Right-biased union: the retired side is empty, every current path keeps its own entry, a
      path that was missing gains the retired entry, and nothing else appears but logs itself. */
  lemma ConsolidationIsUnion(plan: Plan, t0: Tree, t: Tree, r: map<Path, Tree>, p: Path)
    requires Applicable(t0, plan) && Consolidated(plan, t0, t, r)
    ensures UnderSourceRoot(p) ==> p !in t
    ensures !UnderSourceRoot(p) && p in t0 ==> p in t && Kept(plan, p, t0[p], t[p])
    ensures p !in t0 && Origin(p).Some? && Origin(p).value in t0 ==> p in t && t[p] == t0[Origin(p).value]
    ensures p in t ==> p in t0 || p in plan.created || (Origin(p).Some? && Origin(p).value in t0)
  {
    hide Applicable;
    if UnderSourceRoot(p) {
      if p in t {
        OnlyMergedRemain(t0, plan, t, r, p);
      }
    } else if p in t0 {
      CurrentIsBystander(t0, plan, p);
    }
    if p !in t0 && Origin(p).Some? && Origin(p).value in t0 {
      OriginInvertsRelocated(p, Origin(p).value);
      UnmatchedWasMoved(t0, plan, t, r, Origin(p).value);
    }
    if p in t && p !in t0 && p !in plan.created && !UnderSourceRoot(p) {
      NewEntryCameFromSource(plan, t0, t, r, p);
    }
  }

  lemma ArrivalOrigin(plan: Plan, t0: Tree, t: Tree, r: map<Path, Tree>, i: nat, p: Path)
    requires Applicable(t0, plan) && Between(plan, t0, t, r, AllOperations(plan))
    requires i < |plan.operations| && plan.operations[i].action.Move? && plan.operations[i].destination <= p && p in t
    ensures Origin(p).Some? && Origin(p).value in t0
  {
    hide Applicable, Between, Origin, Sub;
    var o := plan.operations[i];
    OperationsFit(t0, plan, i);
    StateOf(plan, t0, t, r, AllOperations(plan), i);
    var x := p[|o.destination|..];
    assert p == o.destination + x;
    assert x in Sub(t, o.destination);
    RelocatedExtends(o.source, x);
    OriginInvertsRelocated(p, o.source + x);
  }

  lemma OutsideSources(t0: Tree, plan: Plan, p: Path)
    requires Applicable(t0, plan) && !UnderSourceRoot(p)
    ensures !UnderOperation(plan.operations, p) && !InMerged(plan.merged, p)
  {
  }

  lemma NewEntryCameFromSource(plan: Plan, t0: Tree, t: Tree, r: map<Path, Tree>, p: Path)
    requires Applicable(t0, plan) && Consolidated(plan, t0, t, r)
    requires p in t && p !in t0 && p !in plan.created && !UnderSourceRoot(p)
    ensures Origin(p).Some? && Origin(p).value in t0
  {
    hide Applicable, Origin;
    OutsideSources(t0, plan, p);
    assert UnderMoveDestination(plan.operations, p);
    var i :| 0 <= i < |plan.operations| && plan.operations[i].action.Move? && plan.operations[i].destination <= p;
    ArrivalOrigin(plan, t0, t, r, i, p);
  }

  /** The surviving copy of a retired entry, and the retained copy of a duplicate. */
  lemma NoContentLost(plan: Plan, t0: Tree, t: Tree, r: map<Path, Tree>, q: Path)
    requires Applicable(t0, plan) && Consolidated(plan, t0, t, r)
    requires q in t0 && UnderSourceRoot(q)
    ensures Relocated(q) in t
    ensures t0[q].Dir? <==> t[Relocated(q)].Dir?
    ensures t0[q].File? ==> SameFile(t0[q], t[Relocated(q)])
    ensures t[Relocated(q)] == t0[q] || t0[q].Dir? || (q in r && [] in r[q] && r[q][[]] == t0[q])
  {
    hide Applicable;
    DestinationsAreNotSources(q);
    if Relocated(q) !in t0 {
      UnmatchedWasMoved(t0, plan, t, r, q);
    } else {
      CurrentIsBystander(t0, plan, Relocated(q));
      MatchedKind(plan, t0, t, r, q);
    }
  }

  lemma MatchedKind(plan: Plan, t0: Tree, t: Tree, r: map<Path, Tree>, q: Path)
    requires Applicable(t0, plan) && Consolidated(plan, t0, t, r)
    requires q in t0 && UnderSourceRoot(q) && Relocated(q) in t0
    ensures t0[q].Dir? <==> t0[Relocated(q)].Dir?
    ensures t0[q].File? ==> SameFile(t0[q], t0[Relocated(q)]) && q in r && [] in r[q] && r[q][[]] == t0[q]
  {
    hide Applicable, Between;
    if InMerged(plan.merged, q) {
      MergedFact(t0, plan, q);
    } else {
      var i, x := CoveringOperation(t0, plan, q);
      StateOf(plan, t0, t, r, AllOperations(plan), i);
      if plan.operations[i].action.Move? {
        DestinationFree(t0, plan, i, x);
      }
      assert plan.operations[i].destination + [] == plan.operations[i].destination;
      assert plan.operations[i].source + [] == plan.operations[i].source;
    }
  }

  /** After a completed consolidation, an old evidence path still leads to the same content. */
  lemma OldEvidencePathsResolve(plan: Plan, t0: Tree, t: Tree, r: map<Path, Tree>, q: Path, allowMissing: bool)
    requires Applicable(t0, plan) && Consolidated(plan, t0, t, r)
    requires q in t0 && UnderSourceRoot(q)
    ensures SafeExistingEvidence(t0, q, q, t0[q].Dir?, allowMissing, true) == Success(q)
    ensures SafeExistingEvidence(t, q, q, t0[q].Dir?, allowMissing, true) == Success(Relocated(q))
    ensures Relocated(q) in t && (t0[q].File? ==> t[Relocated(q)].File? && t[Relocated(q)].content == t0[q].content)
  {
    hide Applicable, Consolidated;
    ConsolidationIsUnion(plan, t0, t, r, q);
    NoContentLost(plan, t0, t, r, q);
  }
}
