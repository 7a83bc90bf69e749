/** The phases of apply and rollback, and any crash schedule built from them. */
module LayoutRun {
  import opened EvidencePaths
  import opened TreeEdits
  import opened LayoutPlan
  import opened LayoutPlanner
  import opened LayoutState
  import opened LayoutSteps
  import opened LayoutFacts
  import opened LayoutTransaction

  lemma StateOf(plan: Plan, t0: Tree, t: Tree, r: map<Path, Tree>, moved: set<nat>, i: nat)
    requires Between(plan, t0, t, r, moved) && i < |plan.operations|
    ensures OperationState(t, r, plan.operations[i], i in moved)
  {
  }

  /** One forward operation keeps the state between the ends. */
  lemma ForwardStep(plan: Plan, t0: Tree, t: Tree, r: map<Path, Tree>, i: nat, u: Tree, r': map<Path, Tree>, now: int)
    requires Applicable(t0, plan) && Between(plan, t0, t, r, Upto(i)) && i < |plan.operations|
    requires plan.operations[i].source != [] && plan.operations[i].destination != []
    requires plan.operations[i].action.Move? ==> u == Renamed(t, plan.operations[i].source, plan.operations[i].destination, now) && r' == r
    requires plan.operations[i].action.Duplicate? ==> u == Removed(t, plan.operations[i].source, now) && r' == r[plan.operations[i].source := plan.operations[i].sourceState]
    ensures Between(plan, t0, u, r', Upto(i + 1)) && SameDirectories(plan, t, u)
  {
    hide Applicable, Between, LocalEdit, Renamed, Removed, Sub, SameDirectories, InMerged, DuplicateSource;
    var o := plan.operations[i];
    StateOf(plan, t0, t, r, Upto(i), i);
    if o.action.Move? {
      RenamedIsLocal(t0, plan, t, i, o.source, o.destination, now);
    } else {
      DuplicateEditIsLocal(t0, plan, t, i, map[], now, u);
      RemovedAndReturnedThere(t, o.source, map[], now);
      SourceOfDuplicate(plan, i);
    }
    DistinctSources(t0, plan, i);
    assert OperationState(u, r', o, true);
    StepStaysBetween(plan, t0, t, r, Upto(i), u, r', Upto(i + 1), i, []);
  }

  lemma SourceOfDuplicate(plan: Plan, i: nat)
    requires i < |plan.operations| && plan.operations[i].action.Duplicate?
    ensures DuplicateSource(plan.operations, plan.operations[i].source)
  {
  }

  lemma DistinctSources(t0: Tree, plan: Plan, i: nat)
    requires Applicable(t0, plan) && i < |plan.operations|
    ensures forall j: nat | j < |plan.operations| && j != i :: plan.operations[j].source != plan.operations[i].source
    ensures [] !in plan.created && !InMerged(plan.merged, [])
  {
  }

  lemma BackwardStep(plan: Plan, t0: Tree, t: Tree, r: map<Path, Tree>, moved: set<nat>, i: nat, u: Tree, r': map<Path, Tree>, now: int)
    requires Applicable(t0, plan) && Between(plan, t0, t, r, moved) && i in moved && i < |plan.operations|
    requires plan.operations[i].source != [] && plan.operations[i].destination != []
    requires plan.operations[i].action.Move? ==> u == Renamed(t, plan.operations[i].destination, plan.operations[i].source, now) && r' == r
    requires plan.operations[i].action.Duplicate? ==>
               && plan.operations[i].source in r
               && u == Returned(t, plan.operations[i].source, r[plan.operations[i].source], now)
               && r' == r - {plan.operations[i].source}
    ensures Between(plan, t0, u, r', moved - {i}) && SameDirectories(plan, t, u)
  {
    hide Applicable, Between, LocalEdit, Renamed, Returned, Sub, SameDirectories, InMerged, DuplicateSource;
    var o := plan.operations[i];
    StateOf(plan, t0, t, r, moved, i);
    if o.action.Move? {
      RenamedIsLocal(t0, plan, t, i, o.destination, o.source, now);
    } else {
      DuplicateEditIsLocal(t0, plan, t, i, r[o.source], now, u);
      RemovedAndReturnedThere(t, o.source, r[o.source], now);
    }
    DistinctSources(t0, plan, i);
    assert OperationState(u, r', o, false);
    StepStaysBetween(plan, t0, t, r, moved, u, r', moved - {i}, i, []);
  }

  lemma DirectoryStep(plan: Plan, t0: Tree, t: Tree, r: map<Path, Tree>, moved: set<nat>, d: Path, n: Node, now: int, u: Tree)
    requires Applicable(t0, plan) && Between(plan, t0, t, r, moved) && n.Dir?
    requires (InMerged(plan.merged, d) || d in plan.created) && d != [] && DirectoryEdit(t, d, n, now, u)
    ensures Between(plan, t0, u, r, moved)
    ensures forall p | (InMerged(plan.merged, p) || p in plan.created) && p != d :: SameDirectory(t, u, p)
  {
    hide Applicable, LocalEdit;
    DirectoryEditIsLocal(t0, plan, t, d, n, now, u);
    StepStaysBetween(plan, t0, t, r, moved, u, r, moved, -1, d);
  }

  /** A directory is still the recorded one as far as apply checks: everything but its
      modification time. */
  predicate SameIdentity(current: Node, recorded: Node) {
    Restamped(recorded, current)
  }

  /** Merged directories that exist are the ones the plan recorded. */
  ghost predicate Recorded(plan: Plan, t: Tree, k: nat) {
    forall a | k <= a < |plan.merged| :: plan.merged[a].source in t && SameIdentity(t[plan.merged[a].source], plan.merged[a].identity)
  }

  lemma StaysRecorded(plan: Plan, t: Tree, u: Tree, k: nat)
    requires Recorded(plan, t, k)
    requires forall a | k <= a < |plan.merged| :: SameDirectory(t, u, plan.merged[a].source)
    ensures Recorded(plan, u, k)
  {
  }

  method MakeCreated(v: Volume, plan: Plan, steps: nat, ghost t0: Tree) returns (done: bool, left: nat)
    requires Applicable(t0, plan) && Between(plan, t0, v.tree, v.retained, {})
    requires v.tree == t0
    modifies v
    ensures Between(plan, t0, v.tree, v.retained, {})
    ensures done ==> DirectoriesPresent(plan, v.tree, false, true) && Recorded(plan, v.tree, 0) && left + |plan.created| == steps
    ensures !done ==> steps < |plan.created|
  {
    hide Applicable, Between;
    left := steps;
    CreatedOnce(t0, plan);
    MergedInitially(plan, t0);
    for k := 0 to |plan.created|
      invariant Between(plan, t0, v.tree, v.retained, {})
      invariant Recorded(plan, v.tree, 0)
      invariant forall a | 0 <= a < k :: plan.created[a] in v.tree
      invariant forall a | k <= a < |plan.created| :: plan.created[a] !in v.tree
      invariant left + k == steps
    {
      if left == 0 {
        return false, left;
      }
      var c := plan.created[k];
      CreatedFact(t0, plan, c);
      ghost var before := v.tree;
      ghost var n, now := v.Mkdir(c);
      DirectoryStep(plan, t0, before, v.retained, {}, c, n, now, v.tree);
      forall a: nat | a < |plan.merged| ensures SameDirectory(before, v.tree, plan.merged[a].source) {
        MergedAt(plan, t0, a);
        NotBoth(plan, t0, plan.merged[a].source);
      }
      StaysRecorded(plan, before, v.tree, 0);
      left := left - 1;
    }
    done := true;
  }

  lemma CreatedOnce(t0: Tree, plan: Plan)
    requires Applicable(t0, plan)
    ensures |plan.created| <= 1
    ensures forall c | c in plan.created :: c !in t0
  {
  }

  method MoveForward(v: Volume, plan: Plan, steps: nat, ghost t0: Tree) returns (outcome: Outcome, left: nat)
    requires Applicable(t0, plan) && Between(plan, t0, v.tree, v.retained, {})
    requires DirectoriesPresent(plan, v.tree, false, true) && Recorded(plan, v.tree, 0)
    modifies v
    ensures InTransaction(plan, t0, v.tree, v.retained)
    ensures outcome.Complete? ==>
              && Between(plan, t0, v.tree, v.retained, AllOperations(plan))
              && DirectoriesPresent(plan, v.tree, false, true) && Recorded(plan, v.tree, 0)
              && left + |plan.operations| == steps
    ensures outcome.Interrupted? ==> steps < |plan.operations|
    ensures outcome.Failed? ==> LogsBlocked(t0)
    ensures outcome.Complete? ==> !LogsBlocked(t0)
  {
    hide Applicable, Between, Renamed, Removed, Sub, LogsBlocked;
    BlockedIffHeld(t0, plan);
    left := steps;
    for i := 0 to |plan.operations|
      invariant Between(plan, t0, v.tree, v.retained, Upto(i))
      invariant Recorded(plan, v.tree, 0)
      invariant DirectoriesPresent(plan, v.tree, false, true)
      invariant forall j | 0 <= j < i :: !HeldByFile(t0, plan.operations[j])
      invariant left + i == steps
    {
      if left == 0 {
        return Interrupted, left;
      }
      OperationsFit(t0, plan, i);
      TransferReady(plan, t0, v.tree, v.retained, i);
      ghost var t, r := v.tree, v.retained;
      var ok, now := v.Transfer(plan.operations[i]);
      if !ok {
        // Every fingerprint still matches, so only the destination's parent can be wrong.
        return Failed, left;
      }
      ForwardStep(plan, t0, t, r, i, v.tree, v.retained, now);
      forall a: nat | a < |plan.merged| ensures SameDirectory(t, v.tree, plan.merged[a].source) {
        MergedAt(plan, t0, a);
      }
      StaysRecorded(plan, t, v.tree, 0);
      left := left - 1;
    }
    outcome := Complete;
  }

  lemma TransferReady(plan: Plan, t0: Tree, t: Tree, r: map<Path, Tree>, i: nat)
    requires Applicable(t0, plan) && Between(plan, t0, t, r, Upto(i)) && i < |plan.operations|
    requires DirectoriesPresent(plan, t, false, true)
    requires plan.operations[i].source != [] && plan.operations[i].destination != []
    ensures var o := plan.operations[i];
            && o.source in t && Sub(t, o.source) == o.sourceState
            && (o.action.Move? ==> o.destination !in t && Parent(o.destination) in t
                                   && (t[Parent(o.destination)].Dir? <==> !HeldByFile(t0, o)))
            && (o.action.Duplicate? ==> Sub(t, o.destination) == o.destinationState && o.source !in r)
  {
    hide Applicable;
    var o := plan.operations[i];
    OperationsFit(t0, plan, i);
    assert OperationState(t, r, o, false);
    SubAt(t0, o.source, o.source);
    SubAt(t, o.source, o.source);
    if o.action.Move? {
      SubAt(t, o.destination, o.destination);
      DestinationHolder(t0, plan, t, r, Upto(i), i);
    } else {
      DuplicateDestinationKept(plan, t0, t, r, Upto(i), i);
    }
  }

  /** Nothing the plan does reaches the surviving copy of a duplicate. */
  lemma DuplicateDestinationKept(plan: Plan, t0: Tree, t: Tree, r: map<Path, Tree>, moved: set<nat>, i: nat)
    requires Applicable(t0, plan) && Between(plan, t0, t, r, moved) && i < |plan.operations| && plan.operations[i].action.Duplicate?
    ensures plan.operations[i].destination in t && Sub(t, plan.operations[i].destination) == plan.operations[i].destinationState
    ensures plan.operations[i].destination in t0 && t[plan.operations[i].destination] == t0[plan.operations[i].destination]
  {
    hide Applicable;
    var d := plan.operations[i].destination;
    OperationsFit(t0, plan, i);
    DuplicateIsBystander(plan, t0, i, []);
    assert d + [] == d;
    forall x ensures d + x in t <==> d + x in t0 {
      DuplicateIsBystander(plan, t0, i, x);
    }
    forall x | d + x in t0 ensures t[d + x] == t0[d + x] {
      DuplicateIsBystander(plan, t0, i, x);
      NothingBelowFile(t0, plan, d, x);
    }
  }

  lemma NothingBelowFile(t0: Tree, plan: Plan, d: Path, x: Path)
    requires Applicable(t0, plan) && d in t0 && t0[d].File? && d + x in t0
    ensures x == []
  {
    FilesAreLeaves(t0, d, x);
  }

  lemma FilesAreLeaves(t: Tree, d: Path, x: Path)
    requires WellFormed(t) && d in t && t[d].File? && d + x in t
    ensures x == []
  {
    if x != [] {
      var q := d + [x[0]];
      assert (d + x)[..|d| + 1] == q;
      PrefixesExist(t, d + x, |d| + 1);
    }
  }

  lemma DuplicateIsBystander(plan: Plan, t0: Tree, i: nat, x: Path)
    requires Applicable(t0, plan) && i < |plan.operations| && plan.operations[i].action.Duplicate?
    ensures Bystander(plan, plan.operations[i].destination + x)
  {
    hide Applicable;
    var d := plan.operations[i].destination;
    OperationsFit(t0, plan, i);
    var q := d + x;
    assert q[0] == d[0];
    forall j: nat | j < |plan.operations|
      ensures !(plan.operations[j].source <= q)
      ensures plan.operations[j].action.Move? ==> !(plan.operations[j].destination <= q)
    {
      EndsApart(t0, plan, i, j);
      EndsApart(t0, plan, j, i);
      OperationsFit(t0, plan, j);
      FirstNames(plan.operations[j].source, q);
      if plan.operations[j].action.Move? && plan.operations[j].destination <= q {
        PrefixesOfOnePathNest(plan.operations[j].destination, d, q);
      }
    }
    if InMerged(plan.merged, q) {
      MergedFact(t0, plan, q);
    }
    if q in plan.created {
      CreatedFact(t0, plan, q);
      DestinationLength(plan.operations[i].source);
    }
  }

  lemma MergedAt(plan: Plan, t0: Tree, k: nat)
    requires Applicable(t0, plan) && k < |plan.merged|
    ensures InMerged(plan.merged, plan.merged[k].source) && plan.merged[k].source != []
    ensures forall a | 0 <= a < |plan.merged| && a != k :: plan.merged[a].source != plan.merged[k].source
    ensures Parent(plan.merged[k].source) == [] || exists a :: k < a < |plan.merged| && plan.merged[a].source == Parent(plan.merged[k].source)
    ensures plan.merged[k].source in t0 && plan.merged[k].identity == t0[plan.merged[k].source]
  {
  }

  method RemoveMerged(v: Volume, plan: Plan, steps: nat, ghost t0: Tree) returns (done: bool, left: nat)
    requires Applicable(t0, plan) && Between(plan, t0, v.tree, v.retained, AllOperations(plan))
    requires DirectoriesPresent(plan, v.tree, false, true) && Recorded(plan, v.tree, 0)
    modifies v
    ensures Between(plan, t0, v.tree, v.retained, AllOperations(plan))
    ensures done ==> Consolidated(plan, t0, v.tree, v.retained)
    ensures !done ==> steps < |plan.merged|
  {
    hide Applicable, Between;
    left := steps;
    for k := 0 to |plan.merged|
      invariant Between(plan, t0, v.tree, v.retained, AllOperations(plan))
      invariant DirectoriesPresent(plan, v.tree, false, true)
      invariant forall a | 0 <= a < k :: plan.merged[a].source !in v.tree
      invariant Recorded(plan, v.tree, k)
      invariant left + k == steps
    {
      if left == 0 {
        return false, left;
      }
      MergedAt(plan, t0, k);
      var m := plan.merged[k].source;
      ghost var t := v.tree;
      PresentDirectory(plan, t0, t, v.retained, AllOperations(plan), m);
      MergedEmptyInTurn(t0, plan, t, v.retained, k);
      // The identity recheck and the emptiness that rmdir needs both always succeed.
      assert SameIdentity(v.tree[m], plan.merged[k].identity);
      var ok, now := v.Rmdir(m);
      assert ok;
      DirectoryStep(plan, t0, t, v.retained, AllOperations(plan), m, t[m], now, v.tree);
      forall a: nat | k < a < |plan.merged| ensures SameDirectory(t, v.tree, plan.merged[a].source) {
        MergedAt(plan, t0, a);
      }
      StaysRecorded(plan, t, v.tree, k + 1);
      NotBoth(plan, t0, m);
      left := left - 1;
    }
    done := true;
    assert Consolidated(plan, t0, v.tree, v.retained);
  }

  lemma PresentDirectory(plan: Plan, t0: Tree, t: Tree, r: map<Path, Tree>, moved: set<nat>, p: Path)
    requires Between(plan, t0, t, r, moved) && (InMerged(plan.merged, p) || p in plan.created)
    ensures DirectoryIfPresent(t, p)
  {
  }

  lemma NotBoth(plan: Plan, t0: Tree, p: Path)
    requires Applicable(t0, plan) && InMerged(plan.merged, p)
    ensures p !in plan.created
  {
    hide Applicable;
    MergedFact(t0, plan, p);
    if p in plan.created {
      CreatedFact(t0, plan, p);
    }
  }

  lemma MergedInitially(plan: Plan, t0: Tree)
    requires Applicable(t0, plan)
    ensures Recorded(plan, t0, 0)
  {
  }

  /** apply_consolidation, from the moment the plan is rechecked under the lock. Whatever step it
      stops after, the volume is in a state of the transaction; given enough steps it fails exactly
      when a file named logs stands where a directory is needed, and finishes otherwise. */
  method Apply(v: Volume, plan: Plan, steps: nat) returns (outcome: Outcome)
    requires Applicable(v.tree, plan) && v.retained == map[]
    modifies v
    ensures InTransaction(plan, old(v.tree), v.tree, v.retained)
    ensures outcome.Complete? ==> Consolidated(plan, old(v.tree), v.tree, v.retained)
    ensures outcome.Failed? ==> LogsBlocked(old(v.tree))
    ensures outcome.Complete? ==> !LogsBlocked(old(v.tree))
    ensures steps >= |plan.created| + |plan.operations| + |plan.merged| ==>
              (outcome.Failed? <==> LogsBlocked(old(v.tree))) && (outcome.Complete? <==> !LogsBlocked(old(v.tree)))
    ensures outcome.Interrupted? ==> steps < |plan.created| + |plan.operations| + |plan.merged|
  {
    hide Applicable, Between, LogsBlocked;
    ghost var t0 := v.tree;
    PlanStarts(t0, plan);
    MergedInitially(plan, t0);
    var done, left := MakeCreated(v, plan, steps, t0);
    if !done {
      return Interrupted;
    }
    outcome, left := MoveForward(v, plan, left, t0);
    if outcome != Complete {
      return;
    }
    done, left := RemoveMerged(v, plan, left, t0);
    if !done {
      outcome := Interrupted;
    }
  }
}
