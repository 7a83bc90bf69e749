/** The planner's recursive visitor, which appends to shared lists as the source's closure does.
    Children are taken in an arbitrary order, so every result holds for the sorted order too. */
module LayoutPlanner {
  import opened EvidencePaths
  import opened TreeEdits
  import opened LayoutPlan

  /** Directories above p that do not exist. */
  function Missing(t: Tree, p: Path): (r: set<Path>)
    ensures p == [] || p in t ==> r == {}
    ensures p != [] && p !in t ==> p in r
  {
    if p == [] || p in t then {} else {p} + Missing(t, Parent(p))
  }

  function SourceNames(t: Tree): set<string> {
    set n | n in SOURCE_ROOTS && [n] in t
  }

  /** A move's destination directory exists, or is one the plan creates. */
  ghost predicate Anchored(t: Tree, created: set<Path>, o: Operation) {
    o.action.Move? ==> o.destination != [] && (Parent(o.destination) in t || Parent(o.destination) in created)
  }

  /** The only directory a plan ever creates is logs, and only when a move needs it. */
  ghost predicate CreatedFits(t: Tree, ops: seq<Operation>, created: set<Path>) {
    && (forall o | o in ops :: Anchored(t, created, o))
    && (forall c | c in created :: c == ["logs"] && c !in t && Needed(ops, c))
  }

  ghost predicate Needed(ops: seq<Operation>, c: Path) {
    exists i :: 0 <= i < |ops| && ops[i].action.Move? && ops[i].destination != [] && Parent(ops[i].destination) == c
  }

  /** The plan describes tree t completely: every path below a retired root is moved, is a
      duplicate, is a merged directory or is in conflict. */
  ghost predicate PlanFits(t: Tree, plan: Plan) {
    && Walked(t, [], SourceNames(t), plan.operations, plan.merged, plan.conflicts)
    && CreatedFits(t, plan.operations, set c | c in plan.created)
    && |plan.created| <= 1
  }

  function Below(t: Tree, p: Path): set<Path> {
    set q | q in t && p <= q
  }

  lemma RootDestination(n: string)
    requires n in SOURCE_ROOTS
    ensures UnderSourceRoot([n]) && (Relocated([n]) == ["archives"] || Relocated([n]) == ["logs", n])
  {
  }

  lemma MissingBelowRoot(t: Tree, n: string)
    requires n in SOURCE_ROOTS && Relocated([n]) !in t
    ensures UnderSourceRoot([n])
    ensures Missing(t, Parent(Relocated([n]))) == if Relocated([n]) == ["archives"] || ["logs"] in t then {} else {["logs"]}
  {
    RootDestination(n);
    var parent := Parent(Relocated([n]));
    assert parent == [] || parent == ["logs"];
    if parent == ["logs"] && ["logs"] !in t {
      assert Parent(["logs"]) == [];
      assert Missing(t, ["logs"]) == {["logs"]} + Missing(t, []);
    }
  }

  class Planner {
    const tree: Tree
    var operations: seq<Operation>
    var merged: seq<MergedDirectory>
    var conflicts: seq<Conflict>
    var parents: set<Path>

    constructor (t: Tree)
      ensures tree == t && operations == [] && merged == [] && conflicts == [] && parents == {}
    {
      tree := t;
      operations, merged, conflicts, parents := [], [], [], {};
    }

    method NoteMissingParents(destination: Path)
      requires destination != []
      modifies this`parents
      ensures parents == old(parents) + Missing(tree, Parent(destination))
    {
      var parent := Parent(destination);
      while parent != [] && parent !in tree
        invariant old(parents) + Missing(tree, Parent(destination)) == parents + Missing(tree, parent)
        decreases |parent|
      {
        parents := parents + {parent};
        parent := Parent(parent);
      }
    }

    /** Everything appended during the visit is exactly a walk over the visited entry. */
    method Visit(source: Path, destination: Path)
      requires WellFormed(tree)
      requires UnderSourceRoot(source) && source in tree && destination == Relocated(source)
      modifies this
      ensures old(operations) <= operations && old(merged) <= merged && old(conflicts) <= conflicts
      ensures Walked(tree, Parent(source), {source[|source| - 1]}, operations[|old(operations)|..], merged[|old(merged)|..], conflicts[|old(conflicts)|..])
      ensures destination in tree ==> parents == old(parents)
      ensures destination in tree ==> forall o | o in operations[|old(operations)|..] :: Anchored(tree, {}, o)
      ensures destination !in tree && destination != [] ==>
                && parents == old(parents) + Missing(tree, Parent(destination))
                && exists o :: operations == old(operations) + [o] && o.action.Move? && o.destination == destination
      decreases Below(tree, source), 0
    {
      assert source != [];
      hide Walked, Relocated, Missing, WellFormed, Names, UnderSourceRoot, Sub, SameFile;
      ghost var o0, m0, c0 := operations, merged, conflicts;
      DestinationsAreNotSources(source);
      if destination !in tree {
        var o := Operation(source, destination, Move, Sub(tree, source), map[]);
        SingleOperation(tree, source, o);
        operations := operations + [o];
        NoteMissingParents(destination);
        assert operations[|o0|..] == [o] && merged[|m0|..] == [] && conflicts[|c0|..] == [];
      } else if tree[source].Dir? && tree[destination].Dir? {
        VisitEntries(source, destination);
        var m := MergedDirectory(source, tree[source]);
        CloseDirectory(tree, source, operations[|o0|..], merged[|m0|..], conflicts[|c0|..], m);
        assert (merged + [m])[|m0|..] == merged[|m0|..] + [m];
        merged := merged + [m];
      } else {
        RecordPair(source, destination);
        assert merged[|m0|..] == [];
      }
    }

    /** Two existing entries that are not both directories. */
    method RecordPair(source: Path, destination: Path)
      requires UnderSourceRoot(source) && source in tree && destination == Relocated(source) && destination in tree
      requires !(tree[source].Dir? && tree[destination].Dir?)
      modifies this`operations, this`conflicts
      ensures old(operations) <= operations && old(conflicts) <= conflicts
      ensures Walked(tree, Parent(source), {source[|source| - 1]}, operations[|old(operations)|..], [], conflicts[|old(conflicts)|..])
      ensures forall o | o in operations[|old(operations)|..] :: Anchored(tree, {}, o)
    {
      ghost var o0, c0 := operations, conflicts;
      if tree[source].File? && tree[destination].File? && SameFile(tree[source], tree[destination]) {
        var o := Operation(source, destination, Duplicate, Sub(tree, source), Sub(tree, destination));
        SingleOperation(tree, source, o);
        operations := operations + [o];
        assert operations[|o0|..] == [o] && conflicts[|c0|..] == [];
      } else {
        var c := Conflict(source, destination,
                          if tree[source].File? && tree[destination].File? then DifferentContentOrMetadata else DifferentEntryTypes);
        SingleConflict(tree, source, c);
        conflicts := conflicts + [c];
        assert operations[|o0|..] == [] && conflicts[|c0|..] == [c];
      }
    }

    /** One listed entry, joined to the walk over the entries before it. */
    method VisitEntry(directory: Path, name: string, destination: Path, ghost visited: set<string>, ghost o0: nat, ghost m0: nat, ghost c0: nat)
      requires WellFormed(tree)
      requires UnderSourceRoot(directory + [name]) && directory + [name] in tree && destination == Relocated(directory + [name])
      requires name !in visited && o0 <= |operations| && m0 <= |merged| && c0 <= |conflicts|
      requires Walked(tree, directory, visited, operations[o0..], merged[m0..], conflicts[c0..])
      modifies this
      ensures old(operations) <= operations && old(merged) <= merged && old(conflicts) <= conflicts
      ensures Walked(tree, directory, visited + {name}, operations[o0..], merged[m0..], conflicts[c0..])
      ensures destination in tree ==> parents == old(parents)
      ensures destination in tree ==> forall o | o in operations[|old(operations)|..] :: Anchored(tree, {}, o)
      ensures destination !in tree && destination != [] ==>
                && parents == old(parents) + Missing(tree, Parent(destination))
                && exists o :: operations == old(operations) + [o] && o.action.Move? && o.destination == destination
      decreases Below(tree, directory + [name]), 1
    {
      hide Walked, Below, Relocated, UnderSourceRoot, WellFormed, Anchored;
      ghost var o1, m1, c1 := operations, merged, conflicts;
      Visit(directory + [name], destination);
      assert Parent(directory + [name]) == directory;
      JoinWalks(tree, directory, visited, o1[o0..], m1[m0..], c1[c0..], {name}, operations[|o1|..], merged[|m1|..], conflicts[|c1|..]);
      assert operations[o0..] == o1[o0..] + operations[|o1|..];
      assert merged[m0..] == m1[m0..] + merged[|m1|..];
      assert conflicts[c0..] == c1[c0..] + conflicts[|c1|..];
    }

    /** The loop of Visit over the directory listing. */
    method VisitEntries(source: Path, destination: Path)
      requires WellFormed(tree)
      requires UnderSourceRoot(source) && source in tree && destination == Relocated(source) && destination in tree
      modifies this
      ensures old(operations) <= operations && old(merged) <= merged && old(conflicts) <= conflicts
      ensures Walked(tree, source, Names(tree, source), operations[|old(operations)|..], merged[|old(merged)|..], conflicts[|old(conflicts)|..])
      ensures parents == old(parents)
      ensures forall o | o in operations[|old(operations)|..] :: Anchored(tree, {}, o)
      decreases Below(tree, source), -1
    {
      hide Walked, Names, Below, Relocated, UnderSourceRoot, WellFormed, Anchored;
      ghost var o0, m0, c0 := operations, merged, conflicts;
      var remaining := Names(tree, source);
      ghost var visited := {};
      NoEntries(tree, source);
      assert operations[|o0|..] == [] && merged[|m0|..] == [] && conflicts[|c0|..] == [];
      while remaining != {}
        invariant visited + remaining == Names(tree, source) && visited !! remaining
        invariant o0 <= operations && m0 <= merged && c0 <= conflicts
        invariant Walked(tree, source, visited, operations[|o0|..], merged[|m0|..], conflicts[|c0|..])
        invariant parents == old(parents)
        invariant forall o | o in operations[|o0|..] :: Anchored(tree, {}, o)
        decreases remaining
      {
        var name :| name in remaining;
        EntryExists(tree, source, name);
        RelocatedExtends(source, [name]);
        ghost var o1 := operations;
        assert Parent(destination + [name]) == destination;
        VisitEntry(source, name, destination + [name], visited, |o0|, |m0|, |c0|);
        AnchoredEntry(tree, o1, operations, destination + [name]);
        assert operations[|o0|..] == o1[|o0|..] + operations[|o1|..];
        visited, remaining := visited + {name}, remaining - {name};
      }
      assert visited == Names(tree, source);
    }
  }

  /** Below an existing destination directory every new move is anchored. */
  lemma AnchoredEntry(t: Tree, o1: seq<Operation>, ops: seq<Operation>, destination: Path)
    requires o1 <= ops && destination != [] && Parent(destination) in t
    requires destination in t ==> forall o | o in ops[|o1|..] :: Anchored(t, {}, o)
    requires destination !in t ==> exists o :: ops == o1 + [o] && o.action.Move? && o.destination == destination
    ensures forall o | o in ops[|o1|..] :: Anchored(t, {}, o)
  {
  }

  lemma PrefixesExist(t: Tree, q: Path, n: nat)
    requires WellFormed(t) && q in t && n <= |q|
    ensures q[..n] in t
    decreases |q| - n
  {
    if n < |q| {
      PrefixesExist(t, q, n + 1);
      assert Parent(q[..n + 1]) == q[..n];
    } else {
      assert q[..n] == q;
    }
  }

  lemma EntryExists(t: Tree, s: Path, name: string)
    requires WellFormed(t) && name in Names(t, s)
    ensures s + [name] in t
    ensures Below(t, s + [name]) < Below(t, s)
  {
    var q :| q in t && |q| > |s| && s <= q && q[|s|] == name;
    assert q[..|s| + 1] == s + [name];
    PrefixesExist(t, q, |s| + 1);
    PrefixesExist(t, q, |s|);
    assert q[..|s|] == s;
    forall r | r in Below(t, s + [name]) ensures r in Below(t, s) {
      assert s <= s + [name];
    }
    assert s in Below(t, s) && s !in Below(t, s + [name]);
  }

  /** One retired root, if it exists. */
  method VisitRoot(planner: Planner, n: string, ghost visited: set<string>)
    requires WellFormed(planner.tree) && n in SOURCE_ROOTS && [n] in planner.tree && n !in visited
    requires Walked(planner.tree, [], visited, planner.operations, planner.merged, planner.conflicts)
    requires CreatedFits(planner.tree, planner.operations, planner.parents)
    modifies planner
    ensures Walked(planner.tree, [], visited + {n}, planner.operations, planner.merged, planner.conflicts)
    ensures CreatedFits(planner.tree, planner.operations, planner.parents)
  {
    hide Walked, CreatedFits, WellFormed, Relocated, Anchored;
    RootDestination(n);
    ghost var o1, p1 := planner.operations, planner.parents;
    assert [] + [n] == [n];
    assert planner.operations[0..] == planner.operations && planner.merged[0..] == planner.merged && planner.conflicts[0..] == planner.conflicts;
    planner.VisitEntry([], n, Relocated([n]), visited, 0, 0, 0);
    assert planner.operations[0..] == planner.operations && planner.merged[0..] == planner.merged && planner.conflicts[0..] == planner.conflicts;
    KeepsParentsCovered(planner.tree, o1, p1, planner.operations, planner.parents, n);
  }

  /** consolidation_plan: the complete plan for a well-formed tree. */
  method ConsolidationPlan(t: Tree) returns (plan: Plan)
    requires WellFormed(t)
    ensures PlanFits(t, plan)
  {
    hide Walked, CreatedFits, WellFormed, SourceNames;
    var planner := new Planner(t);
    NoEntries(t, []);
    NothingCreated(t);
    ghost var visited := {};
    for i := 0 to |SOURCE_ROOTS|
      invariant visited == set k | 0 <= k < i && [SOURCE_ROOTS[k]] in t :: SOURCE_ROOTS[k]
      invariant Walked(t, [], visited, planner.operations, planner.merged, planner.conflicts)
      invariant CreatedFits(t, planner.operations, planner.parents)
    {
      var n := SOURCE_ROOTS[i];
      if [n] in t {
        DistinctRoots(i);
        VisitRoot(planner, n, visited);
        visited := visited + {n};
      }
    }
    AllRoots(t, visited);
    var created := SortedParents(t, planner.operations, planner.parents);
    plan := Plan(planner.operations, planner.merged, created, planner.conflicts);
  }

  lemma NothingCreated(t: Tree)
    ensures CreatedFits(t, [], {})
  {
  }

  lemma AllRoots(t: Tree, visited: set<string>)
    requires visited == set k | 0 <= k < |SOURCE_ROOTS| && [SOURCE_ROOTS[k]] in t :: SOURCE_ROOTS[k]
    ensures visited == SourceNames(t)
  {
  }

  /** Sorting by depth is trivial: logs is the only directory that can be missing. */
  method SortedParents(t: Tree, ops: seq<Operation>, parents: set<Path>) returns (created: seq<Path>)
    requires CreatedFits(t, ops, parents)
    ensures |created| <= 1 && parents == set c | c in created
  {
    created := if ["logs"] in parents then [["logs"]] else [];
    assert parents == set c | c in created;
  }

  lemma DistinctRoots(i: nat)
    requires i < |SOURCE_ROOTS|
    ensures forall k | 0 <= k < i :: SOURCE_ROOTS[k] != SOURCE_ROOTS[i]
  {
  }

  lemma KeepsParentsCovered(t: Tree, o1: seq<Operation>, p1: set<Path>, ops: seq<Operation>, parents: set<Path>, n: string)
    requires WellFormed(t)
    requires n in SOURCE_ROOTS && CreatedFits(t, o1, p1) && o1 <= ops && UnderSourceRoot([n])
    requires Relocated([n]) in t ==> parents == p1 && forall o | o in ops[|o1|..] :: Anchored(t, {}, o)
    requires Relocated([n]) !in t && Relocated([n]) != [] ==>
               && parents == p1 + Missing(t, Parent(Relocated([n])))
               && exists o :: ops == o1 + [o] && o.action.Move? && o.destination == Relocated([n])
    ensures CreatedFits(t, ops, parents)
  {
    assert ops == o1 + ops[|o1|..];
    RootDestination(n);
    forall c | c in p1 ensures Needed(ops, c) {
      var i :| 0 <= i < |o1| && o1[i].action.Move? && o1[i].destination != [] && Parent(o1[i].destination) == c;
      assert ops[i] == o1[i];
    }
    if Relocated([n]) !in t {
      MissingBelowRoot(t, n);
      var o :| ops == o1 + [o] && o.action.Move? && o.destination == Relocated([n]);
      assert ops[|o1|] == o;
      assert Parent(["archives"]) == [] && Parent(["logs", n]) == ["logs"];
      assert Anchored(t, parents, o);
      forall c | c in parents ensures c == ["logs"] && c !in t && Needed(ops, c) {
      }
    }
  }
}
