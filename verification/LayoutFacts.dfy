/** What holds between the steps of a transaction, as needed by the guards of the next step. */
module LayoutFacts {
  import opened EvidencePaths
  import opened TreeEdits
  import opened LayoutPlan
  import opened LayoutPlanner
  import opened LayoutState
  import opened LayoutSteps

  function Upto(n: nat): (r: set<nat>)
    ensures forall i: nat :: i in r <==> i < n
  {
    if n == 0 then {} else Upto(n - 1) + {n - 1}
  }

  function AllOperations(plan: Plan): set<nat> {
    Upto(|plan.operations|)
  }

  /** Everything below a retired root of a conflict-free plan is moved or merged. */
  lemma SourcesAccounted(t0: Tree, plan: Plan, q: Path)
    requires Applicable(t0, plan) && q in t0 && UnderSourceRoot(q)
    ensures UnderOperation(plan.operations, q) || InMerged(plan.merged, q)
  {
    PrefixesExist(t0, q, 1);
    assert q[..1] == [q[0]];
    assert InScope([], SourceNames(t0), q);
    assert Accounted(plan.operations, plan.merged, plan.conflicts, q);
  }

  /** Where a source path can still exist once every operation has happened. */
  lemma OnlyMergedRemain(t0: Tree, plan: Plan, t: Tree, r: map<Path, Tree>, q: Path)
    requires Applicable(t0, plan) && Between(plan, t0, t, r, AllOperations(plan))
    requires UnderSourceRoot(q) && q in t
    ensures InMerged(plan.merged, q)
  {
    hide Applicable, InMerged;
    if UnderOperation(plan.operations, q) {
      var i :| 0 <= i < |plan.operations| && plan.operations[i].source <= q;
      SourceGone(plan, t0, t, r, i, q);
    } else if !InMerged(plan.merged, q) {
      NoDestinationHere(t0, plan, q);
      assert Bystander(plan, q);
      SourcesAccounted(t0, plan, q);
    }
  }

  lemma SourceGone(plan: Plan, t0: Tree, t: Tree, r: map<Path, Tree>, i: nat, q: Path)
    requires Between(plan, t0, t, r, AllOperations(plan)) && i < |plan.operations| && plan.operations[i].source <= q
    ensures q !in t
  {
    assert OperationState(t, r, plan.operations[i], i in AllOperations(plan));
    SubAt(t, plan.operations[i].source, q);
  }

  lemma NoDestinationHere(t0: Tree, plan: Plan, q: Path)
    requires Applicable(t0, plan) && UnderSourceRoot(q)
    ensures !UnderMoveDestination(plan.operations, q) && q !in plan.created
  {
    hide Applicable;
    forall i: nat | i < |plan.operations| ensures !(plan.operations[i].destination <= q) {
      OperationsFit(t0, plan, i);
      FirstNames(q, plan.operations[i].destination);
    }
    if q in plan.created {
      CreatedFact(t0, plan, q);
    }
  }

  /** Post-order pays off: a merged directory is empty when its turn to be removed comes. */
  lemma MergedEmptyInTurn(t0: Tree, plan: Plan, t: Tree, r: map<Path, Tree>, k: nat)
    requires Applicable(t0, plan) && Between(plan, t0, t, r, AllOperations(plan)) && k < |plan.merged|
    requires forall a | 0 <= a < k :: plan.merged[a].source !in t
    ensures Names(t, plan.merged[k].source) == {}
  {
    var m := plan.merged[k].source;
    assert plan.merged[k] in plan.merged;
    forall q | q in t && |q| > |m| && m <= q ensures false {
      OnlyMergedRemain(t0, plan, t, r, q);
    }
  }

  lemma CreatedEmptyAtEnd(t0: Tree, plan: Plan, t: Tree, r: map<Path, Tree>, c: Path)
    requires Applicable(t0, plan) && Between(plan, t0, t, r, {}) && c in plan.created
    ensures Names(t, c) == {}
  {
    hide Applicable;
    CreatedFact(t0, plan, c);
    forall q | q in t && |q| > |c| && c <= q ensures false {
      assert q[0] == "logs";
      NotCreatedBelow(t0, plan, t, r, q);
    }
  }

  lemma NotMovedYet(plan: Plan, t0: Tree, t: Tree, r: map<Path, Tree>, i: nat, q: Path)
    requires Between(plan, t0, t, r, {}) && i < |plan.operations| && plan.operations[i].action.Move? && plan.operations[i].destination <= q
    ensures q !in t
  {
    assert OperationState(t, r, plan.operations[i], false);
    SubAt(t, plan.operations[i].destination, q);
  }

  lemma NotCreatedBelow(t0: Tree, plan: Plan, t: Tree, r: map<Path, Tree>, q: Path)
    requires Applicable(t0, plan) && Between(plan, t0, t, r, {})
    requires |q| > 1 && q[0] == "logs" && ["logs"] in plan.created
    ensures q !in t
  {
    hide Applicable, OperationState, Kept;
    CreatedFact(t0, plan, ["logs"]);
    NothingUnderMissingLogs(t0, plan, q);
    if q in t {
      if UnderOperation(plan.operations, q) {
        var i :| 0 <= i < |plan.operations| && plan.operations[i].source <= q;
        OperationsFit(t0, plan, i);
        FirstNames(plan.operations[i].source, q);
      } else if UnderMoveDestination(plan.operations, q) {
        var i :| 0 <= i < |plan.operations| && plan.operations[i].action.Move? && plan.operations[i].destination <= q;
        NotMovedYet(plan, t0, t, r, i, q);
      } else if InMerged(plan.merged, q) {
        MergedFact(t0, plan, q);
      } else if q in plan.created {
        CreatedFact(t0, plan, q);
      }
    }
  }

  lemma NothingUnderMissingLogs(t0: Tree, plan: Plan, q: Path)
    requires Applicable(t0, plan) && ["logs"] in plan.created
    requires |q| > 1 && q[0] == "logs"
    ensures q !in t0
  {
    CreatedFact(t0, plan, ["logs"]);
    assert q[..1] == ["logs"];
    if q in t0 {
      PrefixesExist(t0, q, 1);
    }
  }

  lemma RootStays(t0: Tree, plan: Plan, t: Tree, r: map<Path, Tree>, moved: set<nat>)
    requires Applicable(t0, plan) && Between(plan, t0, t, r, moved)
    ensures [] in t && t[[]].Dir?
  {
    forall j: nat | j < |plan.operations| ensures !(plan.operations[j].source <= []) && !(plan.operations[j].destination <= []) {
      DirectoriesApart(t0, plan, [], j);
    }
    if InMerged(plan.merged, []) {
      MergedFact(t0, plan, []);
    }
    assert Bystander(plan, []);
  }

  /** The move goes into logs, where a file stands. */
  predicate HeldByFile(t0: Tree, o: Operation) {
    o.action.Move? && o.destination != [] && Parent(o.destination) == ["logs"] && ["logs"] in t0 && t0[["logs"]].File?
  }

  /** A file stands where a retired root other than archive would have to go. */
  ghost predicate LogsBlocked(t0: Tree) {
    ["logs"] in t0 && t0[["logs"]].File? && exists n :: n in SourceNames(t0) && n != "archive"
  }

  /** Some move of the plan is held by a file exactly when the tree is blocked, and then it moves a whole root. */
  lemma BlockedIffHeld(t0: Tree, plan: Plan)
    requires Applicable(t0, plan)
    ensures LogsBlocked(t0) <==> exists i :: 0 <= i < |plan.operations| && HeldByFile(t0, plan.operations[i])
  {
    hide Applicable;
    if LogsBlocked(t0) {
      var n :| n in SourceNames(t0) && n != "archive";
      var i := BlockedRoot(t0, plan, n);
      assert HeldByFile(t0, plan.operations[i]);
    }
    if i: nat :| i < |plan.operations| && HeldByFile(t0, plan.operations[i]) {
      var o := plan.operations[i];
      OperationsFit(t0, plan, i);
      ParentOfDestination(o.source);
      if |o.source| > 1 {
        MergedFact(t0, plan, Parent(o.source));
      }
      assert o.source == [o.source[0]];
      assert o.source[0] in SourceNames(t0);
    }
  }

  lemma BlockedRoot(t0: Tree, plan: Plan, n: string) returns (i: nat)
    requires Applicable(t0, plan) && LogsBlocked(t0) && n in SourceNames(t0) && n != "archive"
    ensures i < |plan.operations| && HeldByFile(t0, plan.operations[i])
  {
    assert UnderSourceRoot([n]) && Relocated([n]) == ["logs", n];
    SourcesAccounted(t0, plan, [n]);
    assert Parent(["logs", n]) == ["logs"];
    assert ["logs", n] !in t0;
    i :| 0 <= i < |plan.operations| && plan.operations[i].source <= [n];
    OperationsFit(t0, plan, i);
    assert plan.operations[i].source == [n];
  }

  /** The directory a move goes into, once the missing ones are made. Only a file named logs can
      be in the way. */
  lemma DestinationHolder(t0: Tree, plan: Plan, t: Tree, r: map<Path, Tree>, moved: set<nat>, i: nat)
    requires Applicable(t0, plan) && Between(plan, t0, t, r, moved)
    requires i < |plan.operations| && plan.operations[i].action.Move? && plan.operations[i].destination != []
    requires DirectoriesPresent(plan, t, false, true)
    ensures Parent(plan.operations[i].destination) in t
    ensures t[Parent(plan.operations[i].destination)].Dir? <==> !HeldByFile(t0, plan.operations[i])
  {
    var o := plan.operations[i];
    var d := Parent(o.destination);
    OperationsFit(t0, plan, i);
    assert Anchored(t0, (set c | c in plan.created), o);
    if d !in plan.created {
      HolderIsBystander(t0, plan, i);
      if t0[d].File? {
        HolderIsLogs(t0, plan, i);
      }
    }
  }

  lemma HolderIsBystander(t0: Tree, plan: Plan, i: nat)
    requires Applicable(t0, plan) && i < |plan.operations| && plan.operations[i].action.Move?
    requires plan.operations[i].destination != [] && Parent(plan.operations[i].destination) !in plan.created
    ensures Bystander(plan, Parent(plan.operations[i].destination))
  {
    hide Applicable;
    var d := Parent(plan.operations[i].destination);
    OperationsFit(t0, plan, i);
    forall j: nat | j < |plan.operations| ensures !(plan.operations[j].source <= d) && !(plan.operations[j].destination <= d) {
      OperationsFit(t0, plan, j);
      ParentsApart(t0, plan, i, j);
    }
    if InMerged(plan.merged, d) {
      MergedFact(t0, plan, d);
    }
  }

  lemma HolderIsLogs(t0: Tree, plan: Plan, i: nat)
    requires Applicable(t0, plan) && i < |plan.operations| && plan.operations[i].action.Move?
    requires plan.operations[i].destination != [] && Parent(plan.operations[i].destination) in t0
    requires t0[Parent(plan.operations[i].destination)].File?
    ensures Parent(plan.operations[i].destination) == ["logs"]
  {
    hide Applicable;
    var o := plan.operations[i];
    OperationsFit(t0, plan, i);
    ParentOfDestination(o.source);
    if |o.source| > 1 {
      MergedFact(t0, plan, Parent(o.source));
    } else if o.source[0] == "archive" {
      HasRoot(t0, plan);
    }
  }

  lemma HasRoot(t0: Tree, plan: Plan)
    requires Applicable(t0, plan)
    ensures [] in t0 && t0[[]].Dir?
  {
  }

  lemma ParentOfDestination(p: Path)
    requires UnderSourceRoot(p)
    ensures Relocated(p) != []
    ensures |p| > 1 ==> UnderSourceRoot(Parent(p)) && Parent(Relocated(p)) == Relocated(Parent(p))
    ensures |p| == 1 ==> Parent(Relocated(p)) == if p[0] == "archive" then [] else ["logs"]
  {
  }

  lemma SourceHolder(t0: Tree, plan: Plan, t: Tree, r: map<Path, Tree>, moved: set<nat>, i: nat)
    requires Applicable(t0, plan) && Between(plan, t0, t, r, moved)
    requires i < |plan.operations| && plan.operations[i].source != []
    requires DirectoriesPresent(plan, t, true, false)
    ensures Parent(plan.operations[i].source) in t && t[Parent(plan.operations[i].source)].Dir?
  {
    OperationsFit(t0, plan, i);
    RootStays(t0, plan, t, r, moved);
  }
}
