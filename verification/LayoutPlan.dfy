/** The consolidation planner (scripts/cval-pvc-layout.py, consolidation_plan): a recursive walk
    of each retired evidence tree against its current destination. */
module LayoutPlan {
  import opened EvidencePaths
  import opened TreeEdits

  datatype Action = Move | Duplicate

  /** States are fingerprints: the whole subtree, so hashing is taken to be injective. */
  datatype Operation = Operation(source: Path, destination: Path, action: Action, sourceState: Tree, destinationState: Tree)

  datatype MergedDirectory = MergedDirectory(source: Path, identity: Node)

  datatype Reason = DifferentContentOrMetadata | DifferentEntryTypes

  datatype Conflict = Conflict(source: Path, destination: Path, reason: Reason)

  datatype Plan = Plan(operations: seq<Operation>, merged: seq<MergedDirectory>, created: seq<Path>, conflicts: seq<Conflict>)

  ghost predicate UnderOperation(ops: seq<Operation>, p: Path) {
    exists i :: 0 <= i < |ops| && ops[i].source <= p
  }

  ghost predicate InMerged(merged: seq<MergedDirectory>, p: Path) {
    exists k :: 0 <= k < |merged| && merged[k].source == p
  }

  ghost predicate UnderConflict(conflicts: seq<Conflict>, p: Path) {
    exists c :: 0 <= c < |conflicts| && conflicts[c].source <= p
  }

  predicate SameFile(a: Node, b: Node) {
    a.File? && b.File? && a.content == b.content && a.meta == b.meta
  }

  /** What one recorded operation says about the planned tree. */
  ghost predicate OperationFits(t: Tree, o: Operation) {
    && UnderSourceRoot(o.source) && o.source in t
    && o.destination == Relocated(o.source)
    && o.sourceState == Sub(t, o.source)
    && (o.action.Move? ==> o.destination !in t)
    && (o.action.Duplicate? ==>
          && o.destination in t && SameFile(t[o.source], t[o.destination])
          && o.destinationState == Sub(t, o.destination))
  }

  ghost predicate MergedFits(t: Tree, m: MergedDirectory) {
    && UnderSourceRoot(m.source) && m.source in t && t[m.source].Dir? && m.identity == t[m.source]
    && Relocated(m.source) in t && t[Relocated(m.source)].Dir?
  }

  /** Two entries that may share a place: directories, or one file twice. */
  predicate Compatible(a: Node, b: Node) {
    (a.Dir? && b.Dir?) || SameFile(a, b)
  }

  /** A recorded conflict is one. */
  ghost predicate ConflictFits(t: Tree, c: Conflict) {
    && UnderSourceRoot(c.source) && c.source in t && c.destination == Relocated(c.source) && c.destination in t
    && !Compatible(t[c.source], t[c.destination])
    && (c.reason == DifferentContentOrMetadata <==> t[c.source].File? && t[c.destination].File?)
  }

  /** p is one of the named entries of s, or lies below one. */
  predicate InScope(s: Path, names: set<string>, p: Path) {
    s <= p && |s| < |p| && p[|s|] in names
  }

  ghost predicate Rooted(s: Path, merged: seq<MergedDirectory>, p: Path)
    requires p != []
  {
    |p| == |s| + 1 || InMerged(merged, Parent(p))
  }

  /** No two operation sources nest, and no merged directory lies inside a moved subtree. */
  ghost predicate Apart(ops: seq<Operation>, merged: seq<MergedDirectory>) {
    && (forall i, j | 0 <= i < |ops| && 0 <= j < |ops| && i != j :: !Nested(ops[i].source, ops[j].source))
    && (forall i, k | 0 <= i < |ops| && 0 <= k < |merged| :: !(ops[i].source <= merged[k].source))
  }

  /** A directory is listed after everything merged below it. */
  ghost predicate PostOrder(merged: seq<MergedDirectory>) {
    forall a, b | 0 <= a < b < |merged| :: !(merged[a].source <= merged[b].source)
  }

  ghost predicate Accounted(ops: seq<Operation>, merged: seq<MergedDirectory>, conflicts: seq<Conflict>, p: Path) {
    UnderOperation(ops, p) || InMerged(merged, p) || UnderConflict(conflicts, p)
  }

  /** The walk over the named entries of s recorded exactly these lists: every existing path
      below those entries is accounted for, and nothing else is mentioned. */
  ghost predicate Walked(t: Tree, s: Path, names: set<string>, ops: seq<Operation>, merged: seq<MergedDirectory>, conflicts: seq<Conflict>) {
    && (forall o | o in ops :: OperationFits(t, o) && InScope(s, names, o.source) && Rooted(s, merged, o.source))
    && (forall m | m in merged :: MergedFits(t, m) && InScope(s, names, m.source) && Rooted(s, merged, m.source))
    && (forall c | c in conflicts :: ConflictFits(t, c) && InScope(s, names, c.source))
    && Apart(ops, merged)
    && PostOrder(merged)
    && (forall p | p in t && InScope(s, names, p) :: Accounted(ops, merged, conflicts, p))
  }

  lemma InMergedExtends(a: seq<MergedDirectory>, b: seq<MergedDirectory>, p: Path)
    ensures InMerged(a, p) ==> InMerged(a + b, p)
    ensures InMerged(b, p) ==> InMerged(a + b, p)
  {
    if InMerged(a, p) {
      var k :| 0 <= k < |a| && a[k].source == p;
      assert (a + b)[k].source == p;
    }
    if InMerged(b, p) {
      var k :| 0 <= k < |b| && b[k].source == p;
      assert (a + b)[|a| + k].source == p;
    }
  }

  lemma AccountedExtends(o1: seq<Operation>, m1: seq<MergedDirectory>, c1: seq<Conflict>,
                         o2: seq<Operation>, m2: seq<MergedDirectory>, c2: seq<Conflict>, p: Path)
    requires Accounted(o1, m1, c1, p) || Accounted(o2, m2, c2, p)
    ensures Accounted(o1 + o2, m1 + m2, c1 + c2, p)
  {
    InMergedExtends(m1, m2, p);
    if UnderOperation(o1, p) {
      var i :| 0 <= i < |o1| && o1[i].source <= p;
      assert (o1 + o2)[i].source <= p;
    } else if UnderOperation(o2, p) {
      var i :| 0 <= i < |o2| && o2[i].source <= p;
      assert (o1 + o2)[|o1| + i].source <= p;
    } else if UnderConflict(c1, p) {
      var i :| 0 <= i < |c1| && c1[i].source <= p;
      assert (c1 + c2)[i].source <= p;
    } else if UnderConflict(c2, p) {
      var i :| 0 <= i < |c2| && c2[i].source <= p;
      assert (c1 + c2)[|c1| + i].source <= p;
    }
  }

  lemma JoinApart(s: Path, n1: set<string>, n2: set<string>, o1: seq<Operation>, m1: seq<MergedDirectory>, o2: seq<Operation>, m2: seq<MergedDirectory>)
    requires n1 !! n2 && Apart(o1, m1) && Apart(o2, m2) && PostOrder(m1) && PostOrder(m2)
    requires forall o | o in o1 :: InScope(s, n1, o.source)
    requires forall m | m in m1 :: InScope(s, n1, m.source)
    requires forall o | o in o2 :: InScope(s, n2, o.source)
    requires forall m | m in m2 :: InScope(s, n2, m.source)
    ensures Apart(o1 + o2, m1 + m2) && PostOrder(m1 + m2)
  {
  }

  /** Walks over different entries of one directory combine. */
  lemma JoinWalks(t: Tree, s: Path, n1: set<string>, o1: seq<Operation>, m1: seq<MergedDirectory>, c1: seq<Conflict>,
                  n2: set<string>, o2: seq<Operation>, m2: seq<MergedDirectory>, c2: seq<Conflict>)
    requires n1 !! n2 && Walked(t, s, n1, o1, m1, c1) && Walked(t, s, n2, o2, m2, c2)
    ensures Walked(t, s, n1 + n2, o1 + o2, m1 + m2, c1 + c2)
  {
    JoinApart(s, n1, n2, o1, m1, o2, m2);
    forall o | o in o1 + o2
      ensures OperationFits(t, o) && InScope(s, n1 + n2, o.source) && Rooted(s, m1 + m2, o.source)
    {
      InMergedExtends(m1, m2, Parent(o.source));
    }
    forall m | m in m1 + m2
      ensures MergedFits(t, m) && InScope(s, n1 + n2, m.source) && Rooted(s, m1 + m2, m.source)
    {
      InMergedExtends(m1, m2, Parent(m.source));
    }
    forall p | p in t && InScope(s, n1 + n2, p) ensures Accounted(o1 + o2, m1 + m2, c1 + c2, p) {
      assert InScope(s, n1, p) || InScope(s, n2, p);
      AccountedExtends(o1, m1, c1, o2, m2, c2, p);
    }
  }

  function Names(t: Tree, s: Path): set<string> {
    set q | q in t && |q| > |s| && s <= q :: q[|s|]
  }

  lemma EntryScope(s: Path, p: Path)
    requires s != []
    ensures InScope(Parent(s), {s[|s| - 1]}, p) <==> s <= p
  {
  }

  lemma EntryBelow(s: Path, names: set<string>, merged: seq<MergedDirectory>, m: MergedDirectory, p: Path)
    requires s != [] && m.source == s
    requires InScope(s, names, p) && Rooted(s, merged, p)
    ensures InScope(Parent(s), {s[|s| - 1]}, p) && Rooted(Parent(s), merged + [m], p)
  {
    EntryScope(s, p);
    InMergedExtends(merged, [m], Parent(p));
    if |p| == |s| + 1 {
      assert Parent(p) == s && [m][0].source == s;
    }
  }

  lemma CloseAccounts(t: Tree, s: Path, ops: seq<Operation>, merged: seq<MergedDirectory>, conflicts: seq<Conflict>, m: MergedDirectory, p: Path)
    requires Walked(t, s, Names(t, s), ops, merged, conflicts)
    requires m.source == s && p in t && s <= p
    ensures Accounted(ops, merged + [m], conflicts, p)
  {
    InMergedExtends(merged, [m], p);
    if p == s {
      assert [m][0].source == p;
    } else {
      assert InScope(s, Names(t, s), p);
    }
  }

  /** Recording the directory itself after its entries closes the walk over it. */
  lemma CloseDirectory(t: Tree, s: Path, ops: seq<Operation>, merged: seq<MergedDirectory>, conflicts: seq<Conflict>, m: MergedDirectory)
    requires s != [] && Walked(t, s, Names(t, s), ops, merged, conflicts)
    requires m.source == s && MergedFits(t, m)
    ensures Walked(t, Parent(s), {s[|s| - 1]}, ops, merged + [m], conflicts)
  {
    var scope, names, all := Names(t, s), {s[|s| - 1]}, merged + [m];
    forall o | o in ops ensures OperationFits(t, o) && InScope(Parent(s), names, o.source) && Rooted(Parent(s), all, o.source) {
      EntryBelow(s, scope, merged, m, o.source);
    }
    forall d | d in all ensures MergedFits(t, d) && InScope(Parent(s), names, d.source) && Rooted(Parent(s), all, d.source) {
      if d in merged {
        EntryBelow(s, scope, merged, m, d.source);
      } else {
        EntryScope(s, s);
      }
    }
    forall c | c in conflicts ensures ConflictFits(t, c) && InScope(Parent(s), names, c.source) {
      EntryScope(s, c.source);
    }
    forall p | p in t && InScope(Parent(s), names, p) ensures Accounted(ops, all, conflicts, p) {
      EntryScope(s, p);
      CloseAccounts(t, s, ops, merged, conflicts, m, p);
    }
  }

  lemma NoEntries(t: Tree, s: Path)
    ensures Walked(t, s, {}, [], [], [])
  {
  }

  /** The walk starts at a whole entry: a single operation or conflict accounts for all of it. */
  lemma SingleOperation(t: Tree, s: Path, o: Operation)
    requires o.source == s && OperationFits(t, o)
    ensures Walked(t, Parent(s), {s[|s| - 1]}, [o], [], [])
  {
    assert s != [];
    hide OperationFits, Relocated, Sub;
    EntryScope(s, s);
    forall p | p in t && InScope(Parent(s), {s[|s| - 1]}, p) ensures UnderOperation([o], p) {
      EntryScope(s, p);
      assert [o][0].source <= p;
    }
  }

  lemma SingleConflict(t: Tree, s: Path, c: Conflict)
    requires s != [] && c.source == s && ConflictFits(t, c)
    ensures Walked(t, Parent(s), {s[|s| - 1]}, [], [], [c])
  {
    hide ConflictFits, Relocated;
    EntryScope(s, s);
    forall p | p in t && InScope(Parent(s), {s[|s| - 1]}, p) ensures UnderConflict([c], p) {
      EntryScope(s, p);
      assert [c][0].source <= p;
    }
  }
}
