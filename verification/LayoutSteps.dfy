/** Each durable step of apply and rollback keeps the transaction between its end states. */
module LayoutSteps {
  import opened EvidencePaths
  import opened TreeEdits
  import opened LayoutPlan
  import opened LayoutState

  /** The same merged and created directories exist, with the same identity. */
  ghost predicate SameDirectories(plan: Plan, t: Tree, u: Tree) {
    forall p | InMerged(plan.merged, p) || p in plan.created :: (p in u <==> p in t) && (p in t ==> Restamped(t[p], u[p]))
  }

  ghost predicate DirectoriesPresent(plan: Plan, t: Tree, merged: bool, created: bool) {
    && (merged ==> forall p | InMerged(plan.merged, p) :: p in t)
    && (created ==> forall p | p in plan.created :: p in t)
  }

  /** Operation i's two ends, in either direction. */
  predicate Ends(plan: Plan, i: nat, a: Path, b: Path)
    requires i < |plan.operations|
  {
    var o := plan.operations[i];
    (a == o.source && b == o.destination) || (a == o.destination && b == o.source)
  }

  lemma BystanderOutside(plan: Plan, p: Path, i: nat)
    requires Bystander(plan, p) && i < |plan.operations|
    ensures !(plan.operations[i].source <= p)
    ensures plan.operations[i].action.Move? ==> !(plan.operations[i].destination <= p)
  {
  }

  /** A directory holding an operation's end is merged, stamped anyway, or not a bystander. */
  lemma HoldersStamped(t0: Tree, plan: Plan, i: nat, p: Path)
    requires Applicable(t0, plan) && i < |plan.operations|
    requires plan.operations[i].source != [] && plan.operations[i].destination != []
    requires p == Parent(plan.operations[i].source) || (plan.operations[i].action.Move? && p == Parent(plan.operations[i].destination))
    ensures Bystander(plan, p) ==> Stamped(plan, p)
  {
    OperationsFit(t0, plan, i);
  }

  lemma RenamedSpares(t0: Tree, plan: Plan, t: Tree, i: nat, a: Path, b: Path, now: int, j: nat)
    requires Applicable(t0, plan) && i < |plan.operations| && j < |plan.operations| && i != j
    requires Ends(plan, i, a, b) && a != [] && b != [] && Sub(t, b) == map[]
    ensures Sub(Renamed(t, a, b, now), plan.operations[j].source) == Sub(t, plan.operations[j].source)
    ensures Sub(Renamed(t, a, b, now), plan.operations[j].destination) == Sub(t, plan.operations[j].destination)
  {
    hide Applicable;
    EndsApart(t0, plan, i, j);
    EndsApart(t0, plan, j, i);
    EndsApart(t0, plan, i, i);
    ParentsApart(t0, plan, i, j);
    RenamedSubtrees(t, a, b, now, plan.operations[j].source);
    RenamedSubtrees(t, a, b, now, plan.operations[j].destination);
  }

  /** The same entry, up to a stamp that the transaction is allowed to leave. */
  ghost predicate SameEntry(plan: Plan, t: Tree, u: Tree, p: Path) {
    (p in u <==> p in t) && (p in t ==> u[p] == t[p] || (Stamped(plan, p) && Restamped(t[p], u[p])))
  }

  ghost predicate SameDirectory(t: Tree, u: Tree, p: Path) {
    (p in u <==> p in t) && (p in t ==> Restamped(t[p], u[p]))
  }

  lemma Localize(plan: Plan, t: Tree, u: Tree, i: int)
    requires forall j | 0 <= j < |plan.operations| && j != i ::
               && Sub(u, plan.operations[j].source) == Sub(t, plan.operations[j].source)
               && Sub(u, plan.operations[j].destination) == Sub(t, plan.operations[j].destination)
    requires forall p | InMerged(plan.merged, p) || p in plan.created :: SameDirectory(t, u, p)
    requires forall p | Bystander(plan, p) :: SameEntry(plan, t, u, p)
    ensures LocalEdit(plan, t, u, i, []) && SameDirectories(plan, t, u)
  {
  }

  lemma RenamedKeepsDirectory(t0: Tree, plan: Plan, t: Tree, i: nat, a: Path, b: Path, now: int, p: Path)
    requires Applicable(t0, plan) && i < |plan.operations|
    requires Ends(plan, i, a, b) && a != [] && b != []
    requires InMerged(plan.merged, p) || p in plan.created
    ensures SameDirectory(t, Renamed(t, a, b, now), p)
  {
    hide Applicable, InMerged, Renamed;
    DirectoriesApart(t0, plan, p, i);
    RenamedElsewhere(t, a, b, now, p);
  }

  lemma RenamedKeepsBystander(t0: Tree, plan: Plan, t: Tree, i: nat, a: Path, b: Path, now: int, p: Path)
    requires Applicable(t0, plan) && i < |plan.operations| && plan.operations[i].action.Move?
    requires Ends(plan, i, a, b) && a != [] && b != [] && Bystander(plan, p)
    ensures SameEntry(plan, t, Renamed(t, a, b, now), p)
  {
    hide Applicable, Renamed;
    BystanderOutside(plan, p, i);
    RenamedElsewhere(t, a, b, now, p);
    if p == Parent(plan.operations[i].source) || p == Parent(plan.operations[i].destination) {
      HoldersStamped(t0, plan, i, p);
    }
  }

  lemma RenamedIsLocal(t0: Tree, plan: Plan, t: Tree, i: nat, a: Path, b: Path, now: int)
    requires Applicable(t0, plan) && i < |plan.operations| && plan.operations[i].action.Move?
    requires Ends(plan, i, a, b) && a != [] && b != [] && Sub(t, b) == map[]
    ensures LocalEdit(plan, t, Renamed(t, a, b, now), i, [])
    ensures SameDirectories(plan, t, Renamed(t, a, b, now))
    ensures Sub(Renamed(t, a, b, now), a) == map[] && Sub(Renamed(t, a, b, now), b) == Sub(t, a)
  {
    hide Applicable, InMerged, Bystander, Stamped, Renamed, Sub, SameDirectory, SameEntry, LocalEdit, SameDirectories;
    var u := Renamed(t, a, b, now);
    EndsApart(t0, plan, i, i);
    RenamedSubtrees(t, a, b, now, []);
    forall j: nat | j < |plan.operations| && j != i
      ensures Sub(u, plan.operations[j].source) == Sub(t, plan.operations[j].source)
      ensures Sub(u, plan.operations[j].destination) == Sub(t, plan.operations[j].destination)
    {
      RenamedSpares(t0, plan, t, i, a, b, now, j);
    }
    forall p | InMerged(plan.merged, p) || p in plan.created ensures SameDirectory(t, u, p) {
      RenamedKeepsDirectory(t0, plan, t, i, a, b, now, p);
    }
    forall p | Bystander(plan, p) ensures SameEntry(plan, t, u, p) {
      RenamedKeepsBystander(t0, plan, t, i, a, b, now, p);
    }
    Localize(plan, t, u, i);
  }

  /** A subtree at p is taken away or put back, stamping the directory that holds it. */
  function Removed(t: Tree, p: Path, now: int): Tree
    requires p != []
  {
    Touch(Detach(t, p), Parent(p), now)
  }

  function Returned(t: Tree, p: Path, s: Tree, now: int): Tree
    requires p != []
  {
    Touch(Attach(t, p, s), Parent(p), now)
  }

  lemma RemovedOrReturned(t: Tree, p: Path, s: Tree, now: int, r: Path)
    requires p != [] && !(r <= Parent(p)) && !Nested(p, r)
    ensures Sub(Removed(t, p, now), r) == Sub(t, r)
    ensures Sub(Returned(t, p, s, now), r) == Sub(t, r)
  {
    SubOfDetached(t, p, r);
    SubOfTouched(Detach(t, p), Parent(p), now, r);
    SubBesideAttached(t, p, s, r);
    SubOfTouched(Attach(t, p, s), Parent(p), now, r);
  }

  lemma RemovedAndReturnedThere(t: Tree, p: Path, s: Tree, now: int)
    requires p != []
    ensures Sub(Removed(t, p, now), p) == map[]
    ensures Sub(t, p) == map[] ==> Sub(Returned(t, p, s, now), p) == s
  {
    NotAboveParent(p, p);
    SubOfDetached(t, p, p);
    SubOfTouched(Detach(t, p), Parent(p), now, p);
    SubOfTouched(Attach(t, p, s), Parent(p), now, p);
    if Sub(t, p) == map[] {
      SubOfAttached(t, p, s);
    }
  }

  lemma DuplicateEditKeepsDirectory(t0: Tree, plan: Plan, t: Tree, i: nat, s: Tree, now: int, u: Tree, p: Path)
    requires Applicable(t0, plan) && i < |plan.operations| && plan.operations[i].source != []
    requires u == Removed(t, plan.operations[i].source, now) || u == Returned(t, plan.operations[i].source, s, now)
    requires InMerged(plan.merged, p) || p in plan.created
    ensures SameDirectory(t, u, p)
  {
    hide Applicable, InMerged;
    DirectoriesApart(t0, plan, p, i);
  }

  lemma DuplicateEditElsewhere(t: Tree, source: Path, s: Tree, now: int, u: Tree, p: Path)
    requires source != [] && !(source <= p)
    requires u == Removed(t, source, now) || u == Returned(t, source, s, now)
    ensures p in u <==> p in t
    ensures p in t ==> u[p] == t[p] || (p == Parent(source) && Restamped(t[p], u[p]))
  {
  }

  lemma DuplicateEditKeepsBystander(t0: Tree, plan: Plan, t: Tree, i: nat, s: Tree, now: int, u: Tree, p: Path)
    requires Applicable(t0, plan) && i < |plan.operations| && plan.operations[i].source != []
    requires u == Removed(t, plan.operations[i].source, now) || u == Returned(t, plan.operations[i].source, s, now)
    requires Bystander(plan, p)
    ensures SameEntry(plan, t, u, p)
  {
    hide Applicable, Bystander, Stamped, Removed, Returned, Restamped;
    OperationsFit(t0, plan, i);
    BystanderOutside(plan, p, i);
    DuplicateEditElsewhere(t, plan.operations[i].source, s, now, u, p);
    if p == Parent(plan.operations[i].source) {
      HoldersStamped(t0, plan, i, p);
    }
  }

  lemma DuplicateEditIsLocal(t0: Tree, plan: Plan, t: Tree, i: nat, s: Tree, now: int, u: Tree)
    requires Applicable(t0, plan) && i < |plan.operations| && plan.operations[i].action.Duplicate?
    requires plan.operations[i].source != []
    requires u == Removed(t, plan.operations[i].source, now) || u == Returned(t, plan.operations[i].source, s, now)
    ensures LocalEdit(plan, t, u, i, []) && SameDirectories(plan, t, u)
  {
    hide Applicable, InMerged, Bystander, Stamped, Removed, Returned, Sub, SameDirectory, SameEntry, LocalEdit, SameDirectories;
    OperationsFit(t0, plan, i);
    var source := plan.operations[i].source;
    forall j: nat | j < |plan.operations| && j != i
      ensures Sub(u, plan.operations[j].source) == Sub(t, plan.operations[j].source)
      ensures Sub(u, plan.operations[j].destination) == Sub(t, plan.operations[j].destination)
    {
      EndsApart(t0, plan, i, j);
      ParentsApart(t0, plan, i, j);
      RemovedOrReturned(t, source, s, now, plan.operations[j].source);
      RemovedOrReturned(t, source, s, now, plan.operations[j].destination);
    }
    forall p | InMerged(plan.merged, p) || p in plan.created ensures SameDirectory(t, u, p) {
      DuplicateEditKeepsDirectory(t0, plan, t, i, s, now, u, p);
    }
    forall p | Bystander(plan, p) ensures SameEntry(plan, t, u, p) {
      DuplicateEditKeepsBystander(t0, plan, t, i, s, now, u, p);
    }
    Localize(plan, t, u, i);
  }

  /** The three directory edits: create, remove, set metadata. */
  predicate DirectoryEdit(t: Tree, d: Path, n: Node, now: int, u: Tree)
    requires d != []
  {
    u == Touch(t[d := n], Parent(d), now) || u == Touch(t - {d}, Parent(d), now) || u == t[d := n]
  }

  lemma DirectoryFact(t0: Tree, plan: Plan, d: Path)
    requires Applicable(t0, plan) && (InMerged(plan.merged, d) || d in plan.created)
    ensures d != [] && (Parent(d) == [] || InMerged(plan.merged, Parent(d)))
  {
  }

  lemma DirectoryEditElsewhere(t: Tree, d: Path, n: Node, now: int, u: Tree, p: Path)
    requires d != [] && DirectoryEdit(t, d, n, now, u) && p != d
    ensures p in u <==> p in t
    ensures p in t ==> u[p] == t[p] || (p == Parent(d) && Restamped(t[p], u[p]))
  {
  }

  lemma DirectoryEditKeepsBystander(t0: Tree, plan: Plan, t: Tree, d: Path, n: Node, now: int, u: Tree, p: Path)
    requires Applicable(t0, plan) && (InMerged(plan.merged, d) || d in plan.created)
    requires d != [] && DirectoryEdit(t, d, n, now, u) && Bystander(plan, p)
    ensures SameEntry(plan, t, u, p)
  {
    hide Applicable, DirectoryEdit, InMerged, Restamped;
    DirectoryFact(t0, plan, d);
    DirectoryEditElsewhere(t, d, n, now, u, p);
  }

  /** A merged or created directory is made, described or removed. */
  lemma DirectoryEditIsLocal(t0: Tree, plan: Plan, t: Tree, d: Path, n: Node, now: int, u: Tree)
    requires Applicable(t0, plan) && (InMerged(plan.merged, d) || d in plan.created)
    requires d != [] && DirectoryEdit(t, d, n, now, u)
    ensures LocalEdit(plan, t, u, -1, d)
    ensures forall p | (InMerged(plan.merged, p) || p in plan.created) && p != d :: SameDirectory(t, u, p)
  {
    hide Applicable, InMerged, Sub, DirectoryEdit, Bystander, Stamped;
    DirectoryFact(t0, plan, d);
    forall j: nat | j < |plan.operations|
      ensures Sub(u, plan.operations[j].source) == Sub(t, plan.operations[j].source)
      ensures Sub(u, plan.operations[j].destination) == Sub(t, plan.operations[j].destination)
    {
      DirectoriesApart(t0, plan, d, j);
      DirectoriesApart(t0, plan, Parent(d), j);
      DirectoryEditSpares(t, d, n, now, u, plan.operations[j].source);
      DirectoryEditSpares(t, d, n, now, u, plan.operations[j].destination);
    }
    forall p | (InMerged(plan.merged, p) || p in plan.created) && p != d ensures SameDirectory(t, u, p) {
      DirectoryEditElsewhere(t, d, n, now, u, p);
    }
    forall p | Bystander(plan, p) ensures SameEntry(plan, t, u, p) {
      DirectoryEditKeepsBystander(t0, plan, t, d, n, now, u, p);
    }
  }

  lemma DirectoryEditSpares(t: Tree, d: Path, n: Node, now: int, u: Tree, r: Path)
    requires d != [] && !(r <= d) && !(r <= Parent(d))
    requires DirectoryEdit(t, d, n, now, u)
    ensures Sub(u, r) == Sub(t, r)
  {
    SubBesideEntry(t, d, n, r);
    SubOfTouched(t[d := n], Parent(d), now, r);
    SubOfTouched(t - {d}, Parent(d), now, r);
  }
}
